/** Batches of a chronological format: which ordinals of each stream broker a batch of steps covers, and where
    in the fetched data a step of the batch is. */
module ChronoBatches {
  import opened Common
  import opened Dealing
  import Chronology
  import StepTable
  import Alignment

  /** The brokers of a group, by their numbers in the data source. Without an order, the steps are dealt
      round-robin; steps of a kind that every broker has are taken from the first. */
  datatype Topology = Topology(everywhere: bool, brokers: seq<nat>, order: Option<seq<Chronology.Location>>,
        segments: seq<SegmentRef>)

  /** A segment: the broker it is in, and its logical slot. */
  datatype SegmentRef = SegmentRef(broker: nat, logical: nat)

  /** A position among the group's brokers, and the step's ordinal there. */
  datatype Held = Held(position: nat, ordinal: nat)

  function IndexOf(brokers: seq<nat>, broker: nat): (r: Option<nat>)
    ensures r.Some? ==> r.value < |brokers| && brokers[r.value] == broker && broker !in brokers[..r.value]
    ensures r.None? <==> broker !in brokers
  {
    if brokers == [] then None
    else
      var n := |brokers| - 1;
      var r := IndexOf(brokers[..n], broker);
      if r.None? && brokers[n] == broker then Some(n) else r
  }

  lemma {:induction false} FirstIndex(brokers: seq<nat>, b: nat)
    requires b < |brokers| && brokers[b] !in brokers[..b]
    ensures IndexOf(brokers, brokers[b]) == Some(b)
  {
    var n := |brokers| - 1;
    if b < n {
      assert brokers[..n][..b] == brokers[..b];
      FirstIndex(brokers[..n], b);
    }
  }

  function Locate(t: Topology, step: nat): (r: Option<Held>)
    ensures r.Some? && r.value.position > 0 ==> r.value.position < |t.brokers|
  {
    if t.everywhere then Some(Held(0, step))
    else if t.brokers == [] then None
    else match t.order
      case Some(order) =>
        if step >= |order| then None
        else (
          match IndexOf(t.brokers, order[step].broker)
          case Some(b) => Some(Held(b, order[step].ordinal))
          case None => None)
      case None => Some(Held(step % |t.brokers|, step / |t.brokers|))
  }

  method LocateStep(t: Topology, step: nat) returns (r: Option<Held>)
    ensures r == Locate(t, step)
  {
    if t.everywhere {
      return Some(Held(0, step));
    }
    if t.brokers == [] {
      return None;
    }
    if t.order.Some? {
      if step >= |t.order.value| {
        return None;
      }
      var loc := t.order.value[step];
      for b := 0 to |t.brokers|
        invariant loc.broker !in t.brokers[..b]
      {
        if t.brokers[b] == loc.broker {
          FirstIndex(t.brokers, b);
          return Some(Held(b, loc.ordinal));
        }
      }
      return None;
    }
    return Some(Held(step % |t.brokers|, step / |t.brokers|));
  }

  // ----- Ordinals are counts

  /** How many of the first n steps are held at a position. */
  function HeldBefore(t: Topology, b: nat, n: nat): nat {
    if n == 0 then 0 else HeldBefore(t, b, n - 1) + (if HeldAt(t, b, n - 1) then 1 else 0)
  }

  predicate HeldAt(t: Topology, b: nat, step: nat) {
    Locate(t, step).Some? && Locate(t, step).value.position == b
  }

  /** How many of the first n places of an order are in a broker. */
  function PlacesBefore(order: seq<Chronology.Location>, broker: nat, n: nat): nat
    requires n <= |order|
  {
    if n == 0 then 0 else PlacesBefore(order, broker, n - 1) + (if order[n - 1].broker == broker then 1 else 0)
  }

  /** Each place of the order names its broker's next ordinal. */
  ghost predicate Numbered(order: seq<Chronology.Location>) {
    forall i :: 0 <= i < |order| ==> order[i].ordinal == PlacesBefore(order, order[i].broker, i)
  }

  ghost predicate GoodOrder(t: Topology) {
    t.order.Some? ==> Numbered(t.order.value)
  }

  lemma {:induction false} PlacesAreHeld(t: Topology, b: nat, n: nat)
    requires !t.everywhere && t.order.Some? && n <= |t.order.value|
    requires b < |t.brokers| && IndexOf(t.brokers, t.brokers[b]) == Some(b)
    ensures HeldBefore(t, b, n) == PlacesBefore(t.order.value, t.brokers[b], n)
  {
    if n > 0 {
      PlacesAreHeld(t, b, n - 1);
    }
  }

  lemma {:induction false} EverywhereHeld(t: Topology, n: nat)
    requires t.everywhere
    ensures HeldBefore(t, 0, n) == n
  {
    if n > 0 {
      EverywhereHeld(t, n - 1);
    }
  }

  /** Round-robin: of the first n steps position b holds one in each complete turn, and one more past its own. */
  lemma {:induction false} RoundRobinHeld(t: Topology, b: nat, n: nat)
    requires !t.everywhere && t.order.None? && b < |t.brokers|
    ensures HeldBefore(t, b, n) == n / |t.brokers| + (if b < n % |t.brokers| then 1 else 0)
  {
    var k := |t.brokers|;
    if n > 0 {
      RoundRobinHeld(t, b, n - 1);
      DivNext(n - 1, k);
    } else {
      DivNext(0, k);
    }
  }

  lemma DivNext(n: nat, k: Size)
    ensures 0 / k == 0 && 0 % k == 0
    ensures if n % k == k - 1 then (n + 1) / k == n / k + 1 && (n + 1) % k == 0
            else (n + 1) / k == n / k && (n + 1) % k == n % k + 1
  {
    DivIs(0, k, 0);
    DivMod(n, k);
    NextIs(n, k, n / k, n % k);
  }

  lemma NextIs(n: nat, k: Size, q: nat, r: nat)
    requires n == q * k + r && r < k
    ensures if r == k - 1 then (n + 1) / k == q + 1 && (n + 1) % k == 0 else (n + 1) / k == q && (n + 1) % k == r + 1
  {
    MulStep(q, k);
    DivIs(n + 1, k, if r == k - 1 then q + 1 else q);
  }

  /** A located step's ordinal is the number of earlier steps at the same position: in a merged order,
      round-robin, and where every broker has the step. */
  lemma OrdinalCounts(t: Topology, step: nat)
    requires GoodOrder(t) && Locate(t, step).Some?
    ensures var at := Locate(t, step).value; at.ordinal == HeldBefore(t, at.position, step)
  {
    hide HeldBefore, PlacesBefore;
    var at := Locate(t, step).value;
    if t.everywhere {
      EverywhereHeld(t, step);
    } else if t.order.Some? {
      PlacesAreHeld(t, at.position, step);
    } else {
      RoundRobinHeld(t, at.position, step);
    }
  }

  // ----- A batch

  lemma {:induction false} HeldGrows(t: Topology, b: nat, m: nat, n: nat)
    requires m <= n
    ensures HeldBefore(t, b, m) <= HeldBefore(t, b, n)
  {
    if m < n {
      HeldGrows(t, b, m, n - 1);
    }
  }

  ghost predicate AllLocated(t: Topology, first: nat, end: nat) {
    forall step :: first <= step < end ==> Locate(t, step).Some?
  }

  /** Position b holds the steps of [from, end), if any, as its ordinals first to last. */
  predicate Spans(t: Topology, any: bool, first: nat, last: nat, b: nat, from: nat, end: nat) {
    && (any <==> HeldBefore(t, b, end) > HeldBefore(t, b, from))
    && (any ==> first == HeldBefore(t, b, from) && last + 1 == HeldBefore(t, b, end))
  }

  lemma SpansNone(t: Topology, first: nat, last: nat, b: nat, from: nat)
    ensures Spans(t, false, first, last, b, from, from)
  {
  }

  lemma SpansNext(t: Topology, any: bool, first: nat, last: nat, b: nat, from: nat, step: nat)
    requires GoodOrder(t) && from <= step && Locate(t, step).Some? && Spans(t, any, first, last, b, from, step)
    ensures var at := Locate(t, step).value;
            if at.position == b then Spans(t, true, if any then first else at.ordinal, at.ordinal, b, from, step + 1)
            else Spans(t, any, first, last, b, from, step + 1)
  {
    OrdinalCounts(t, step);
    HeldGrows(t, b, from, step);
  }

  class ChronoBatch {
    const first: array<nat>
    const last: array<nat>
    const any: array<bool>

    constructor (maxSegments: nat)
      ensures fresh(first) && fresh(last) && fresh(any)
      ensures first.Length == last.Length == any.Length == maxSegments
      ensures forall b :: 0 <= b < maxSegments ==> !any[b]
    {
      first := new nat[maxSegments](_ => 0);
      last := new nat[maxSegments](_ => 0);
      any := new bool[maxSegments](_ => false);
    }

    ghost predicate Room(t: Topology) {
      && first.Length == last.Length == any.Length >= |t.brokers|
      && first.Length > 0 && first != last
    }

    ghost predicate Covers(t: Topology, from: nat, end: nat)
      requires Room(t)
      reads first, last, any
    {
      forall b :: 0 <= b < any.Length ==> Spans(t, any[b], first[b], last[b], b, from, end)
    }

    /** Find which steps of [from, to) each position holds; an empty range stands for its first step. */
    method Fill(t: Topology, from: nat, to: nat) returns (status: IOStatus)
      requires Room(t) && GoodOrder(t) && forall b :: 0 <= b < any.Length ==> !any[b]
      modifies first, last, any
      ensures var end := if to > from then to else from + 1;
              && (status == Success <==> AllLocated(t, from, end))
              && (status == Success ==> Covers(t, from, end))
              && (status != Success ==> status == NoOffsetInData)
    {
      hide HeldBefore, Locate, Spans, Numbered;
      var end := if to > from then to else from + 1;
      forall b | 0 <= b < any.Length {
        SpansNone(t, first[b], last[b], b, from);
      }
      for step := from to end
        invariant AllLocated(t, from, step) && Covers(t, from, step)
      {
        var at := LocateStep(t, step);
        if at.None? {
          return NoOffsetInData;
        }
        var b := at.value.position;
        forall c | 0 <= c < any.Length {
          SpansNext(t, any[c], first[c], last[c], c, from, step);
        }
        if !any[b] {
          any[b] := true;
          first[b] := at.value.ordinal;
        }
        last[b] := at.value.ordinal;
      }
      return Success;
    }
  }

  // ----- What is fetched, and where each step is in it

  /** The ordinals that position b fetches for a batch; `map` gives the ordinal of the fetched kind at an
      ordinal of the group's, if there is one. */
  function Ordinals(t: Topology, any: bool, first: nat, last: nat, b: nat, mapping: nat -> Option<nat>): Option<Range>
    requires b < |t.brokers|
  {
    if !any || FirstSegmentOf(t, b).None? then Some(Range(0, 0))
    else match (mapping(first), mapping(last))
      case (Some(f), Some(l)) => Some(Range(f, l + 1))
      case _ => None
  }

  /** A segment of a fetched batch: which one, and the position of a step's data. */
  datatype Place = Place(segment: nat, slot: int)

  function Slot(t: Topology, any: bool, first: nat, b: nat, ordinal: nat, logical: nat,
        mapping: nat -> Option<nat>): Option<Place>
    requires b < |t.brokers|
  {
    if !any then None
    else match (SegmentIndexFor(t, b, logical), mapping(first), mapping(ordinal))
      case (Some(n), Some(f), Some(o)) =>
        var slot: int := o as int - f as int;
        Some(Place(n, slot))
      case _ => None
  }

  function FirstSegmentOf(t: Topology, b: nat): (r: Option<nat>)
    requires b < |t.brokers|
    ensures r.Some? ==> r.value < |t.segments| && t.segments[r.value].broker == t.brokers[b]
    ensures forall n :: 0 <= n < (if r.Some? then r.value else |t.segments|) ==> !Matches(t, b, None, n)
  {
    FirstFrom(t, b, None, 0)
  }

  function SegmentIndexFor(t: Topology, b: nat, logical: nat): (r: Option<nat>)
    requires b < |t.brokers|
    ensures r.Some? ==> r.value < |t.segments| && t.segments[r.value] == SegmentRef(t.brokers[b], logical)
    ensures forall n :: 0 <= n < (if r.Some? then r.value else |t.segments|) ==> !Matches(t, b, Some(logical), n)
  {
    FirstFrom(t, b, Some(logical), 0)
  }

  /** The first segment, from the n-th on, of a broker and, if given, a logical slot. */
  function FirstFrom(t: Topology, b: nat, logical: Option<nat>, n: nat): (r: Option<nat>)
    requires b < |t.brokers| && n <= |t.segments|
    ensures r.Some? ==> n <= r.value < |t.segments| && Matches(t, b, logical, r.value)
    ensures forall m :: n <= m < (if r.Some? then r.value else |t.segments|) ==> !Matches(t, b, logical, m)
    decreases |t.segments| - n
  {
    if n == |t.segments| then None
    else if Matches(t, b, logical, n) then Some(n)
    else FirstFrom(t, b, logical, n + 1)
  }

  predicate Matches(t: Topology, b: nat, logical: Option<nat>, n: nat)
    requires b < |t.brokers| && n < |t.segments|
  {
    t.segments[n].broker == t.brokers[b] && (logical.None? || t.segments[n].logical == logical.value)
  }

  function PerKind(ordinal: nat): Option<nat> {
    Some(ordinal)
  }

  /** How many ordinals the first n positions fetch. */
  function Fetched(t: Topology, from: nat, end: nat, n: nat): int {
    if n == 0 then 0 else Fetched(t, from, end, n - 1) + HeldBefore(t, n - 1, end) - HeldBefore(t, n - 1, from)
  }

  lemma {:induction false} FetchedNext(t: Topology, from: nat, end: nat, n: nat)
    requires Locate(t, end).Some?
    ensures Fetched(t, from, end + 1, n) == Fetched(t, from, end, n) + (if Locate(t, end).value.position < n then 1 else 0)
  {
    if n > 0 {
      FetchedNext(t, from, end, n - 1);
    }
  }

  lemma {:induction false} FetchedNothing(t: Topology, from: nat, n: nat)
    ensures Fetched(t, from, from, n) == 0
  {
    if n > 0 {
      FetchedNothing(t, from, n - 1);
    }
  }

  /** Nothing is fetched twice or left out: the lengths that the positions fetch add up to the batch. */
  lemma {:induction false} FetchedIsBatch(t: Topology, from: nat, end: nat)
    requires from <= end && AllLocated(t, from, end) && t.brokers != []
    ensures Fetched(t, from, end, |t.brokers|) == end - from
    decreases end
  {
    if from == end {
      FetchedNothing(t, from, |t.brokers|);
    } else {
      assert Locate(t, end - 1).Some?;
      FetchedIsBatch(t, from, end - 1);
      FetchedNext(t, from, end - 1, |t.brokers|);
    }
  }

  /** Per kind, each position fetches as many consecutive ordinals as it holds steps of the batch. */
  lemma OrdinalsAreConsecutive(t: Topology, any: bool, first: nat, last: nat, b: nat, from: nat, end: nat)
    requires b < |t.brokers| && FirstSegmentOf(t, b).Some? && from <= end && Spans(t, any, first, last, b, from, end)
    ensures var r := Ordinals(t, any, first, last, b, PerKind);
            && r.Some? && r.value.end - r.value.first == HeldBefore(t, b, end) - HeldBefore(t, b, from)
            && (any ==> r.value.first == HeldBefore(t, b, from))
  {
    hide HeldBefore, Locate;
    HeldGrows(t, b, from, end);
  }

  /** Per kind, a step's slot is the number of earlier steps of the batch at its position, inside what is
      fetched, and the ordinal there is the step's own. */
  lemma SlotIsOwnPlace(t: Topology, any: bool, first: nat, last: nat, from: nat, end: nat, step: nat, logical: nat)
    requires GoodOrder(t) && Locate(t, step).Some? && from <= step < end && Locate(t, step).value.position < |t.brokers|
    requires Spans(t, any, first, last, Locate(t, step).value.position, from, end)
    ensures var at := Locate(t, step).value;
            var place := Slot(t, any, first, at.position, at.ordinal, logical, PerKind);
            && (place.Some? <==> SegmentIndexFor(t, at.position, logical).Some?)
            && (place.Some? ==>
                  && place.value.segment == SegmentIndexFor(t, at.position, logical).value
                  && place.value.slot == HeldBefore(t, at.position, step) - HeldBefore(t, at.position, from)
                  && 0 <= place.value.slot < HeldBefore(t, at.position, end) - HeldBefore(t, at.position, from)
                  && first + place.value.slot == at.ordinal)
  {
    hide HeldBefore, Locate, Numbered;
    var at := Locate(t, step).value;
    OrdinalCounts(t, step);
    HeldGrows(t, at.position, from, step);
    HeldGrows(t, at.position, step + 1, end);
    HeldNext(t, at.position, step);
  }

  lemma HeldNext(t: Topology, b: nat, n: nat)
    ensures HeldBefore(t, b, n + 1) == HeldBefore(t, b, n) + (if HeldAt(t, b, n) then 1 else 0)
  {
  }

  ghost predicate Ascending(mapping: nat -> Option<nat>) {
    forall i: nat, j: nat :: i <= j && mapping(i).Some? && mapping(j).Some? ==> mapping(i).value <= mapping(j).value
  }

  /** Aligned to another kind, a slot still lies inside what its position fetches, at the mapped ordinal. */
  lemma AlignedSlotInside(t: Topology, any: bool, first: nat, last: nat, from: nat, end: nat, step: nat, logical: nat,
        mapping: nat -> Option<nat>)
    requires GoodOrder(t) && Locate(t, step).Some? && from <= step < end && Locate(t, step).value.position < |t.brokers|
    requires Spans(t, any, first, last, Locate(t, step).value.position, from, end) && Ascending(mapping)
    ensures var at := Locate(t, step).value;
            var place := Slot(t, any, first, at.position, at.ordinal, logical, mapping);
            var range := Ordinals(t, any, first, last, at.position, mapping);
            place.Some? && range.Some? ==>
              && range.value.first + place.value.slot == mapping(at.ordinal).value
              && 0 <= place.value.slot < range.value.end - range.value.first
  {
    hide HeldBefore, Locate, Numbered;
    var at := Locate(t, step).value;
    OrdinalCounts(t, step);
    HeldGrows(t, at.position, from, step);
    HeldGrows(t, at.position, step + 1, end);
    HeldNext(t, at.position, step);
    if SegmentIndexFor(t, at.position, logical).Some? {
      assert Matches(t, at.position, None, SegmentIndexFor(t, at.position, logical).value);
    }
  }

  /** The mapping of a segment of `kind` whose group is aligned to `refKind`, over the history of its broker. */
  ghost function AlignedMapping(h: seq<StepTable.Step>, kind: nat, refKind: nat): nat -> Option<nat> {
    (o: nat) => if o < StepTable.Count(h, refKind) then Alignment.Latest(h, kind, refKind, o) else None
  }

  lemma AlignedAscends(h: seq<StepTable.Step>, kind: nat, refKind: nat)
    ensures Ascending(AlignedMapping(h, kind, refKind))
  {
    hide StepTable.Count, Alignment.Latest;
    var mapping := AlignedMapping(h, kind, refKind);
    forall i: nat, j: nat | i <= j && mapping(i).Some? && mapping(j).Some?
      ensures mapping(i).value <= mapping(j).value
    {
      Alignment.LatestAscends(h, kind, refKind, i, j);
    }
  }

  /** A step's slot, found by the alignment of its own segment, counts from the start of what the position fetches by
      that of its first segment exactly when both map the first step alike, as segments of one kind do; and then
      the slot holds the latest step of the segment's kind at or before the step, and is inside what is fetched. */
  lemma AlignedSlotIsLatest(t: Topology, any: bool, first: nat, last: nat, from: nat, end: nat, step: nat, logical: nat,
        h: seq<StepTable.Step>, fetchedKind: nat, kind: nat, refKind: nat)
    requires GoodOrder(t) && Locate(t, step).Some? && from <= step < end && Locate(t, step).value.position < |t.brokers|
    requires Spans(t, any, first, last, Locate(t, step).value.position, from, end)
    ensures var at := Locate(t, step).value;
            var fetched, own := AlignedMapping(h, fetchedKind, refKind), AlignedMapping(h, kind, refKind);
            var range := Ordinals(t, any, first, last, at.position, fetched);
            var place := Slot(t, any, first, at.position, at.ordinal, logical, own);
            place.Some? && range.Some? ==>
              && at.ordinal < StepTable.Count(h, refKind)
              && (Some(range.value.first + place.value.slot) == Alignment.Latest(h, kind, refKind, at.ordinal)
                  <==> own(first) == fetched(first))
              && (kind == fetchedKind ==> 0 <= place.value.slot < range.value.end - range.value.first)
  {
    hide HeldBefore, Locate, Numbered, StepTable.Count, Alignment.Latest, Spans, SegmentIndexFor, FirstSegmentOf;
    var at := Locate(t, step).value;
    var fetched := AlignedMapping(h, fetchedKind, refKind);
    if kind == fetchedKind {
      AlignedAscends(h, kind, refKind);
      AlignedSlotInside(t, any, first, last, from, end, step, logical, fetched);
    }
    if SegmentIndexFor(t, at.position, logical).Some? {
      assert Matches(t, at.position, None, SegmentIndexFor(t, at.position, logical).value);
    }
  }

  // ----- The merged order is numbered

  /** Every stream counts its steps from 0. */
  ghost predicate FromZero(streams: seq<seq<Chronology.Entry>>) {
    forall b, i :: 0 <= b < |streams| && 0 <= i < |streams[b]| ==> streams[b][i].ordinal == i
  }

  /** The ordinals of a broker among the first n placed steps are those from 0 to its count. */
  ghost predicate FirstOrdinals(items: seq<Chronology.Item>, n: nat, broker: nat)
    requires n <= |items|
  {
    var count := PlacesBefore(Chronology.Places(items), broker, n);
    && (forall i :: 0 <= i < n && items[i].broker == broker ==> items[i].ordinal < count)
    && (forall o: nat :: o < count ==> HasOrdinal(items, n, broker, o))
  }

  ghost predicate HasOrdinal(items: seq<Chronology.Item>, n: nat, broker: nat, o: nat)
    requires n <= |items|
  {
    exists i :: 0 <= i < n && items[i].broker == broker && items[i].ordinal == o
  }

  /** What the merge placed names each broker's steps one after another. */
  lemma {:induction false} PlacedInOrdinalOrder(streams: seq<seq<Chronology.Entry>>, took: seq<nat>,
        items: seq<Chronology.Item>, n: nat, broker: nat)
    requires Chronology.InTimeOrder(streams) && FromZero(streams)
    requires Chronology.Counts(streams, took) && Chronology.Placed(streams, took, items) && n <= |items|
    ensures FirstOrdinals(items, n, broker)
    ensures n < |items| && items[n].broker == broker ==>
        items[n].ordinal == PlacesBefore(Chronology.Places(items), broker, n)
  {
    hide Chronology.InTimeOrder;
    if n > 0 {
      PlacedInOrdinalOrder(streams, took, items, n - 1, broker);
      if items[n - 1].broker == broker {
        var o := items[n - 1].ordinal;
        forall p: nat | p < PlacesBefore(Chronology.Places(items), broker, n)
          ensures HasOrdinal(items, n, broker, p)
        {
          if p < o {
            assert HasOrdinal(items, n - 1, broker, p);
          } else {
            assert items[n - 1].broker == broker && items[n - 1].ordinal == p;
          }
        }
      } else {
        forall p: nat | p < PlacesBefore(Chronology.Places(items), broker, n)
          ensures HasOrdinal(items, n, broker, p)
        {
          assert HasOrdinal(items, n - 1, broker, p);
        }
      }
    }
    if n < |items| && items[n].broker == broker {
      NextOrdinal(streams, took, items, n);
    }
  }

  lemma NextOrdinal(streams: seq<seq<Chronology.Entry>>, took: seq<nat>, items: seq<Chronology.Item>, n: nat)
    requires Chronology.InTimeOrder(streams) && FromZero(streams)
    requires Chronology.Counts(streams, took) && Chronology.Placed(streams, took, items) && n < |items|
    requires FirstOrdinals(items, n, items[n].broker)
    ensures items[n].ordinal == PlacesBefore(Chronology.Places(items), items[n].broker, n)
  {
    hide PlacesBefore, Chronology.InTimeOrder;
    var b, o := items[n].broker, items[n].ordinal;
    var count := PlacesBefore(Chronology.Places(items), b, n);
    ItemIsStep(streams, took, items, n);
    hide FirstOrdinals, HasOrdinal;
    if o < count {
      NoOrdinalTwice(streams, took, items, n);
    } else if count < o {
      NoOrdinalSkipped(streams, took, items, n, count);
    }
  }

  lemma NoOrdinalTwice(streams: seq<seq<Chronology.Entry>>, took: seq<nat>, items: seq<Chronology.Item>, n: nat)
    requires FromZero(streams) && Chronology.Counts(streams, took) && Chronology.Placed(streams, took, items)
    requires n < |items| && FirstOrdinals(items, n, items[n].broker)
    ensures items[n].ordinal >= PlacesBefore(Chronology.Places(items), items[n].broker, n)
  {
    hide PlacesBefore, Chronology.Places;
    var b, o := items[n].broker, items[n].ordinal;
    if o < PlacesBefore(Chronology.Places(items), b, n) {
      assert HasOrdinal(items, n, b, o);
      var i :| 0 <= i < n && items[i].broker == b && items[i].ordinal == o;
      ItemIsStep(streams, took, items, i);
      ItemIsStep(streams, took, items, n);
    }
  }

  lemma NoOrdinalSkipped(streams: seq<seq<Chronology.Entry>>, took: seq<nat>, items: seq<Chronology.Item>, n: nat,
        count: nat)
    requires Chronology.InTimeOrder(streams) && FromZero(streams)
    requires Chronology.Counts(streams, took) && Chronology.Placed(streams, took, items) && n < |items|
    requires FirstOrdinals(items, n, items[n].broker)
        && count == PlacesBefore(Chronology.Places(items), items[n].broker, n)
    ensures items[n].ordinal <= count
  {
    hide PlacesBefore, Chronology.InTimeOrder, Chronology.Places, Chronology.Placed;
    if count < items[n].ordinal {
      var j := EarlierIsPlaced(streams, took, items, n, count);
    }
  }

  /** An earlier step of a placed one's broker is placed before it. */
  lemma EarlierIsPlaced(streams: seq<seq<Chronology.Entry>>, took: seq<nat>, items: seq<Chronology.Item>, n: nat,
        o: nat) returns (j: nat)
    requires Chronology.InTimeOrder(streams) && FromZero(streams)
    requires Chronology.Counts(streams, took) && Chronology.Placed(streams, took, items) && n < |items|
    requires o < items[n].ordinal
    ensures j < n && items[j].broker == items[n].broker && items[j].ordinal == o
  {
    hide Chronology.InTimeOrder;
    ItemIsStep(streams, took, items, n);
    EarlierStep(streams, items[n].broker, o, items[n].ordinal);
    var x := Chronology.ItemAt(streams, items[n].broker, o);
    assert x in items;
    j :| 0 <= j < |items| && items[j] == x;
  }

  lemma ItemIsStep(streams: seq<seq<Chronology.Entry>>, took: seq<nat>, items: seq<Chronology.Item>, n: nat)
    requires FromZero(streams) && Chronology.Counts(streams, took) && Chronology.Placed(streams, took, items) && n < |items|
    ensures var b, o := items[n].broker, items[n].ordinal;
            b < |streams| && o < took[b] && items[n] == Chronology.ItemAt(streams, b, o)
  {
    assert items[n] in items;
  }

  lemma EarlierStep(streams: seq<seq<Chronology.Entry>>, b: nat, o: nat, p: nat)
    requires Chronology.InTimeOrder(streams) && FromZero(streams) && b < |streams| && o < p < |streams[b]|
    ensures Chronology.Less(Chronology.ItemAt(streams, b, o), Chronology.ItemAt(streams, b, p))
  {
  }

  /** Whatever was merged so far is an order that the batches above can rely on. */
  lemma MergedIsNumbered(streams: seq<seq<Chronology.Entry>>, s: Chronology.State, seen: seq<nat>, took: seq<nat>,
        items: seq<Chronology.Item>)
    requires Chronology.InTimeOrder(streams) && FromZero(streams) && Chronology.Inv(streams, s, seen, took, items)
    ensures Numbered(s.order)
  {
    forall i | 0 <= i < |s.order|
      ensures s.order[i].ordinal == PlacesBefore(s.order, s.order[i].broker, i)
    {
      PlacedInOrdinalOrder(streams, took, items, i, s.order[i].broker);
    }
  }
}
