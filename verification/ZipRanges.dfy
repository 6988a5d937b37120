/** When two groups that share a fetch need the same ordinals of a broker: what the fetch planner of zipped
    iteration takes for granted about chronological groups. */
module ZipRanges {
  import opened Common
  import opened Dealing
  import opened ChronoBatches
  import Plan = ZipPlan

  /** The range that position b needs of a batch that its group can locate. */
  function DemandOf(t: Topology, b: nat, from: nat, end: nat, mapping: nat -> Option<nat>): Option<Range>
    requires b < |t.brokers|
  {
    var first, next := HeldBefore(t, b, from), HeldBefore(t, b, end);
    Ordinals(t, next > first, first, if next > first then next - 1 else first, b, mapping)
  }

  /** It is what the ordinals of a filled batch come to. */
  lemma DemandIsFetched(t: Topology, any: bool, first: nat, last: nat, b: nat, from: nat, end: nat,
        mapping: nat -> Option<nat>)
    requires b < |t.brokers| && Spans(t, any, first, last, b, from, end)
    ensures Ordinals(t, any, first, last, b, mapping) == DemandOf(t, b, from, end, mapping)
  {
  }

  /** Position b of one group and position c of another need the same range for every batch that both can locate. */
  ghost predicate SameDemands(s: Topology, b: nat, t: Topology, c: nat, mapping: nat -> Option<nat>)
    requires b < |s.brokers| && c < |t.brokers|
  {
    forall from: nat, end: nat :: from <= end && AllLocated(s, from, end) && AllLocated(t, from, end) ==>
      DemandOf(s, b, from, end, mapping) == DemandOf(t, c, from, end, mapping)
  }

  /** A position that has a segment to fetch, in a group whose order is a merged one, if it has an order. */
  ghost predicate Fetches(t: Topology, b: nat) {
    GoodOrder(t) && b < |t.brokers| && FirstSegmentOf(t, b).Some?
  }

  /** A step that both groups can locate is at both positions or at neither, and at both with the same image. */
  predicate StepAgrees(s: Topology, b: nat, t: Topology, c: nat, n: nat, mapping: nat -> Option<nat>) {
    match (Locate(s, n), Locate(t, n))
    case (Some(x), Some(y)) =>
      (x.position == b <==> y.position == c) && (x.position == b ==> mapping(x.ordinal) == mapping(y.ordinal))
    case _ => true
  }

  /** All batches come to the same exactly when each single step does. */
  lemma SameDemandsExactly(s: Topology, b: nat, t: Topology, c: nat, mapping: nat -> Option<nat>)
    requires Fetches(s, b) && Fetches(t, c)
    ensures SameDemands(s, b, t, c, mapping) <==> forall n: nat :: StepAgrees(s, b, t, c, n, mapping)
  {
    hide HeldBefore, DemandOf, Numbered, FirstSegmentOf, Locate;
    if SameDemands(s, b, t, c, mapping) {
      forall n: nat
        ensures StepAgrees(s, b, t, c, n, mapping)
      {
        if Locate(s, n).Some? && Locate(t, n).Some? {
          assert DemandOf(s, b, n, n + 1, mapping) == DemandOf(t, c, n, n + 1, mapping);
          OneStep(s, b, n, mapping);
          OneStep(t, c, n, mapping);
        }
      }
    }
    if forall n: nat :: StepAgrees(s, b, t, c, n, mapping) {
      forall from: nat, end: nat | from <= end && AllLocated(s, from, end) && AllLocated(t, from, end)
        ensures DemandOf(s, b, from, end, mapping) == DemandOf(t, c, from, end, mapping)
      {
        SameBatch(s, b, t, c, from, end, mapping);
      }
    }
  }

  /** What a position needs of a batch of one step. */
  lemma OneStep(t: Topology, b: nat, n: nat, mapping: nat -> Option<nat>)
    requires Fetches(t, b) && Locate(t, n).Some?
    ensures DemandOf(t, b, n, n + 1, mapping) ==
            if Locate(t, n).value.position != b then Some(Range(0, 0))
            else (match mapping(Locate(t, n).value.ordinal)
                  case Some(o) => Some(Range(o, o + 1))
                  case None => None)
  {
    hide HeldBefore, Numbered, FirstSegmentOf, Locate;
    OrdinalCounts(t, n);
    HeldNext(t, b, n);
  }

  ghost predicate StepsAgree(s: Topology, b: nat, t: Topology, c: nat, from: nat, end: nat, mapping: nat -> Option<nat>) {
    && AllLocated(s, from, end) && AllLocated(t, from, end)
    && forall n :: from <= n < end ==> StepAgrees(s, b, t, c, n, mapping)
  }

  lemma SameBatch(s: Topology, b: nat, t: Topology, c: nat, from: nat, end: nat, mapping: nat -> Option<nat>)
    requires Fetches(s, b) && Fetches(t, c) && from <= end && StepsAgree(s, b, t, c, from, end, mapping)
    ensures DemandOf(s, b, from, end, mapping) == DemandOf(t, c, from, end, mapping)
  {
    hide HeldBefore, Numbered, FirstSegmentOf, Locate, StepsAgree, StepAgrees;
    SameCount(s, b, t, c, from, end, mapping);
    if HeldBefore(s, b, end) > HeldBefore(s, b, from) {
      SameFirst(s, b, t, c, from, end, mapping);
      SameLast(s, b, t, c, from, end, mapping);
    }
  }

  lemma {:induction false} SameCount(s: Topology, b: nat, t: Topology, c: nat, from: nat, end: nat,
        mapping: nat -> Option<nat>)
    requires from <= end && StepsAgree(s, b, t, c, from, end, mapping)
    ensures HeldBefore(s, b, end) - HeldBefore(s, b, from) == HeldBefore(t, c, end) - HeldBefore(t, c, from)
    decreases end
  {
    hide HeldBefore, Locate;
    if from < end {
      SameCount(s, b, t, c, from, end - 1, mapping);
      HeldNext(s, b, end - 1);
      HeldNext(t, c, end - 1);
      assert Locate(s, end - 1).Some? && Locate(t, end - 1).Some? && StepAgrees(s, b, t, c, end - 1, mapping);
    }
  }

  lemma {:induction false} SameFirst(s: Topology, b: nat, t: Topology, c: nat, from: nat, end: nat,
        mapping: nat -> Option<nat>)
    requires GoodOrder(s) && GoodOrder(t) && from <= end && StepsAgree(s, b, t, c, from, end, mapping)
    requires HeldBefore(s, b, end) > HeldBefore(s, b, from)
    ensures mapping(HeldBefore(s, b, from)) == mapping(HeldBefore(t, c, from))
    decreases end - from
  {
    hide HeldBefore, Locate, Numbered;
    assert Locate(s, from).Some? && Locate(t, from).Some? && StepAgrees(s, b, t, c, from, mapping);
    OrdinalCounts(s, from);
    OrdinalCounts(t, from);
    HeldNext(s, b, from);
    HeldNext(t, c, from);
    if Locate(s, from).value.position != b {
      SameFirst(s, b, t, c, from + 1, end, mapping);
    }
  }

  lemma {:induction false} SameLast(s: Topology, b: nat, t: Topology, c: nat, from: nat, end: nat,
        mapping: nat -> Option<nat>)
    requires GoodOrder(s) && GoodOrder(t) && from <= end && StepsAgree(s, b, t, c, from, end, mapping)
    requires HeldBefore(s, b, end) > HeldBefore(s, b, from) && HeldBefore(t, c, end) > HeldBefore(t, c, from)
    ensures mapping(HeldBefore(s, b, end) - 1) == mapping(HeldBefore(t, c, end) - 1)
    decreases end
  {
    hide HeldBefore, Locate, Numbered;
    assert Locate(s, end - 1).Some? && Locate(t, end - 1).Some? && StepAgrees(s, b, t, c, end - 1, mapping);
    OrdinalCounts(s, end - 1);
    OrdinalCounts(t, end - 1);
    HeldNext(s, b, end - 1);
    HeldNext(t, c, end - 1);
    if Locate(s, end - 1).value.position != b {
      SameLast(s, b, t, c, from, end - 1, mapping);
    }
  }

  // ----- In each kind of group

  predicate IsPosition(t: Topology, b: nat, broker: nat) {
    b < |t.brokers| && t.brokers[b] == broker && IndexOf(t.brokers, broker) == Some(b)
  }

  predicate Merged(t: Topology) {
    !t.everywhere && t.order.Some?
  }

  /** Groups of steps over one merged order need the same, whatever other brokers they have and however their steps
      are mapped. */
  lemma OneOrderSameDemands(s: Topology, b: nat, t: Topology, c: nat, broker: nat, mapping: nat -> Option<nat>)
    requires Merged(s) && Merged(t) && s.order == t.order && Fetches(s, b) && Fetches(t, c)
    requires IsPosition(s, b, broker) && IsPosition(t, c, broker)
    ensures SameDemands(s, b, t, c, mapping)
  {
    SameDemandsExactly(s, b, t, c, mapping);
  }

  /** Groups of steps that every broker has, which are taken from a group's first: exactly when this broker comes
      first in both or in neither. */
  lemma EverywhereSameDemands(s: Topology, b: nat, t: Topology, c: nat, mapping: nat -> Option<nat>)
    requires s.everywhere && t.everywhere && Fetches(s, b) && Fetches(t, c)
    ensures SameDemands(s, b, t, c, mapping) <==> (b == 0 <==> c == 0)
  {
    SameDemandsExactly(s, b, t, c, mapping);
    assert StepAgrees(s, b, t, c, 0, mapping) <==> (b == 0 <==> c == 0);
  }

  /** A group of such steps and one of distributed steps: exactly when the second finds nothing in this broker that
      the first takes from another, or everything in it, with the same images. */
  lemma MixedSameDemands(s: Topology, b: nat, t: Topology, c: nat, mapping: nat -> Option<nat>)
    requires s.everywhere && !t.everywhere && Fetches(s, b) && Fetches(t, c)
    ensures SameDemands(s, b, t, c, mapping) <==>
            if b > 0 then forall n: nat :: !HeldAt(t, c, n)
            else forall n: nat :: Locate(t, n).Some? ==>
              HeldAt(t, c, n) && mapping(Locate(t, n).value.ordinal) == mapping(n)
  {
    SameDemandsExactly(s, b, t, c, mapping);
    hide Locate;
    assert forall n: nat :: Locate(s, n) == Some(Held(0, n)) by {
      EverywhereLocates(s);
    }
    if b > 0 {
      assert forall n: nat :: StepAgrees(s, b, t, c, n, mapping) <==> !HeldAt(t, c, n);
    } else {
      assert forall n: nat :: StepAgrees(s, b, t, c, n, mapping) <==>
          (Locate(t, n).Some? ==> HeldAt(t, c, n) && mapping(Locate(t, n).value.ordinal) == mapping(n));
    }
  }

  lemma EverywhereLocates(t: Topology)
    requires t.everywhere
    ensures forall n: nat :: Locate(t, n) == Some(Held(0, n))
  {
  }

  /** If the steps are dealt round-robin instead: exactly when the broker comes first and is the only one. */
  lemma MixedRoundRobin(s: Topology, b: nat, t: Topology, c: nat, mapping: nat -> Option<nat>)
    requires s.everywhere && !t.everywhere && t.order.None? && Fetches(s, b) && Fetches(t, c)
    ensures SameDemands(s, b, t, c, mapping) <==> b == 0 && |t.brokers| == 1
  {
    MixedSameDemands(s, b, t, c, mapping);
    hide SameDemands, Fetches;
    var k := |t.brokers|;
    DivIs(c, k, 0);
    assert HeldAt(t, c, c);
    if k > 1 {
      var n := if c == 0 then 1 else 0;
      DivIs(n, k, 0);
      assert Locate(t, n).Some? && !HeldAt(t, c, n);
    } else {
      forall n: nat
        ensures Locate(t, n) == Some(Held(0, n))
      {
        DivIs(n, k, n);
      }
    }
  }

  lemma TurnsDivide(b: nat, k: nat, m: Size)
    requires k > 0 && (b + k) % m == b
    ensures m <= k
  {
    DivMod(b + k, m);
  }

  /** Positions b of k and c of m brokers hold the same steps of the first turns, and so are the same. */
  lemma SameTurns(b: nat, k: Size, c: nat, m: Size)
    requires b % m == c && c % k == b && (b + k) % m == c && (c + m) % k == b
    ensures b == c && k == m
  {
    assert b == c by {
      ModAtMost(b, m);
      ModAtMost(c, k);
    }
    TurnsDivide(b, k, m);
    TurnsDivide(c, m, k);
  }

  lemma ModAtMost(n: nat, k: Size)
    ensures n % k <= n
  {
    DivMod(n, k);
  }

  lemma OneTurnOn(b: nat, k: Size)
    requires b < k
    ensures b % k == b && (b + k) % k == b
  {
    DivIs(b, k, 0);
    DivIs(b + k, k, 1);
  }

  lemma RoundRobinLocates(t: Topology, n: nat)
    requires !t.everywhere && t.order.None? && t.brokers != []
    ensures Locate(t, n) == Some(Held(n % |t.brokers|, n / |t.brokers|))
  {
  }

  lemma AgreeingTurn(s: Topology, b: nat, t: Topology, c: nat, n: nat, mapping: nat -> Option<nat>)
    requires !s.everywhere && !t.everywhere && s.order.None? && t.order.None? && s.brokers != [] && t.brokers != []
    requires StepAgrees(s, b, t, c, n, mapping)
    ensures n % |s.brokers| == b <==> n % |t.brokers| == c
  {
    hide Locate;
    RoundRobinLocates(s, n);
    RoundRobinLocates(t, n);
  }

  /** Both dealt round-robin: exactly when the groups have as many brokers, and this one at the same position. */
  lemma RoundRobinSameDemands(s: Topology, b: nat, t: Topology, c: nat, mapping: nat -> Option<nat>)
    requires !s.everywhere && !t.everywhere && s.order.None? && t.order.None? && Fetches(s, b) && Fetches(t, c)
    ensures SameDemands(s, b, t, c, mapping) <==> b == c && |s.brokers| == |t.brokers|
  {
    SameDemandsExactly(s, b, t, c, mapping);
    hide SameDemands, StepAgrees, Locate, FirstSegmentOf;
    var k, m := |s.brokers|, |t.brokers|;
    if SameDemands(s, b, t, c, mapping) {
      OneTurnOn(b, k);
      OneTurnOn(c, m);
      AgreeingTurn(s, b, t, c, b, mapping);
      AgreeingTurn(s, b, t, c, c, mapping);
      AgreeingTurn(s, b, t, c, b + k, mapping);
      AgreeingTurn(s, b, t, c, c + m, mapping);
      SameTurns(b, k, c, m);
    }
    if b == c && k == m {
      forall n: nat
        ensures StepAgrees(s, b, t, c, n, mapping)
      {
        SameAgrees(s, t, b, n, mapping);
      }
    }
  }

  lemma SameAgrees(s: Topology, t: Topology, b: nat, n: nat, mapping: nat -> Option<nat>)
    requires !s.everywhere && !t.everywhere && s.order.None? && t.order.None? && |s.brokers| == |t.brokers|
    ensures StepAgrees(s, b, t, b, n, mapping)
  {
  }

  // ----- Zips of such groups

  /** The groups of a zip, and how ordinals map onto the kind that a buffer is for. */
  datatype Zip = Zip(groups: seq<Plan.Group>, topologies: seq<Topology>,
        mapping: (Plan.Buffer, Plan.Mapping, nat) -> nat -> Option<nat>)

  ghost predicate ProperZip(zip: Zip) {
    && |zip.topologies| == |zip.groups| && Plan.WellFormed(zip.groups)
    && (forall g :: 0 <= g < |zip.groups| ==> zip.topologies[g].brokers == zip.groups[g].brokers)
    && (forall g, b :: 0 <= g < |zip.groups| && 0 <= b < |zip.groups[g].brokers| ==> Fetches(zip.topologies[g], b))
  }

  function MappingOf(zip: Zip, g: nat, b: nat): nat -> Option<nat>
    requires Plan.Has(zip.groups, g, b)
  {
    zip.mapping(Plan.BufferFor(zip.groups, g, b), zip.groups[g].mapping, zip.groups[g].alignPattern)
  }

  /** Each position's demand is its range of the batch, if its group can locate the batch. */
  ghost predicate AreDemands(zip: Zip, from: nat, end: nat, demands: (nat, nat) -> Plan.Demand)
    requires ProperZip(zip)
  {
    forall g: nat, b: nat :: Plan.Has(zip.groups, g, b) ==>
      demands(g, b).range ==
      if AllLocated(zip.topologies[g], from, end) then DemandOf(zip.topologies[g], b, from, end, MappingOf(zip, g, b))
      else None
  }

  /** Positions that share a fetch need the same of every batch. */
  ghost predicate SharersSame(zip: Zip)
    requires ProperZip(zip)
  {
    forall g: nat, b: nat, h: nat, c: nat ::
      Plan.Has(zip.groups, g, b) && Plan.Has(zip.groups, h, c) && Plan.SharesFetch(zip.groups, g, b, h, c) ==>
        SameDemands(zip.topologies[g], b, zip.topologies[h], c, MappingOf(zip, g, b))
  }

  ghost predicate EveryGroupLocates(zip: Zip, from: nat, end: nat)
    requires ProperZip(zip)
  {
    forall g :: 0 <= g < |zip.groups| && zip.groups[g].brokers != [] ==> AllLocated(zip.topologies[g], from, end)
  }

  /** After a successful fetch of a batch, what the buffers hold is right for every group, if and only if every
      group can locate the batch: the fetches that are shared are not asked for the groups that share them. */
  lemma SharedIsInPlace(zip: Zip, from: nat, end: nat, demands: (nat, nat) -> Plan.Demand, fetches: seq<Plan.Fetch>,
        was: map<Plan.Buffer, Range>, now: map<Plan.Buffer, Range>)
    requires ProperZip(zip) && SharersSame(zip) && from <= end && AreDemands(zip, from, end, demands)
    requires Plan.Planned(zip.groups, fetches) && Plan.AllGo(fetches, demands)
    requires Plan.Filled(zip.groups, fetches, now, demands) && Plan.Untouched(zip.groups, fetches, was, now, demands)
    ensures Plan.InPlace(zip.groups, now, demands) <==> EveryGroupLocates(zip, from, end)
  {
    Plan.FilledIsInPlace(zip.groups, fetches, was, now, demands);
    hide Plan.PlannedTo, Plan.SharesFetch, Plan.Filled, Plan.Untouched, AllLocated, DemandOf, MappingOf, Fetches;
    if Plan.InPlace(zip.groups, now, demands) {
      forall g | 0 <= g < |zip.groups| && zip.groups[g].brokers != []
        ensures AllLocated(zip.topologies[g], from, end)
      {
        assert Plan.Has(zip.groups, g, 0);
        assert Plan.Holds(now, Plan.BufferFor(zip.groups, g, 0), demands(g, 0).range);
      }
    }
    if EveryGroupLocates(zip, from, end) {
      forall g: nat, b: nat, f: nat | f < |fetches| && Plan.IsServer(zip.groups, fetches, f, g, b)
        ensures Plan.Served(zip.groups, was, fetches[f], g, b, demands)
      {
        ServedSame(zip, from, end, demands, fetches[f], g, b);
        assert Plan.Goes(fetches, f, demands);
      }
    }
  }

  lemma ServedSame(zip: Zip, from: nat, end: nat, demands: (nat, nat) -> Plan.Demand, fetch: Plan.Fetch, g: nat, b: nat)
    requires ProperZip(zip) && SharersSame(zip) && from <= end && AreDemands(zip, from, end, demands)
        && EveryGroupLocates(zip, from, end)
    requires Plan.Has(zip.groups, g, b) && Plan.Has(zip.groups, fetch.group, fetch.position)
        && Plan.SharesFetch(zip.groups, g, b, fetch.group, fetch.position)
    ensures demands(g, b).range == Plan.Needs(fetch, demands)
  {
    hide AllLocated, DemandOf, Fetches;
    var h, c := fetch.group, fetch.position;
    assert MappingOf(zip, g, b) == MappingOf(zip, h, c);
    assert SameDemands(zip.topologies[g], b, zip.topologies[h], c, MappingOf(zip, g, b));
  }

  /** The groups of a format are over one merged order, each with its brokers once. */
  ghost predicate OverMergedOrders(zip: Zip)
    requires ProperZip(zip)
  {
    && (forall g :: 0 <= g < |zip.groups| ==> Merged(zip.topologies[g]))
    && (forall g, b :: 0 <= g < |zip.groups| && 0 <= b < |zip.groups[g].brokers| ==>
          IsPosition(zip.topologies[g], b, zip.groups[g].brokers[b]))
    && (forall g, h :: 0 <= g < |zip.groups| && 0 <= h < |zip.groups| && zip.groups[g].format == zip.groups[h].format ==>
          zip.topologies[g].order == zip.topologies[h].order)
  }

  /** Then the planner is right to compare no more than broker, pattern and mapping. */
  lemma MergedSharersSame(zip: Zip)
    requires ProperZip(zip) && OverMergedOrders(zip)
    ensures SharersSame(zip)
  {
    hide Fetches, IsPosition, Merged, SameDemands;
    forall g: nat, b: nat, h: nat, c: nat |
      Plan.Has(zip.groups, g, b) && Plan.Has(zip.groups, h, c) && Plan.SharesFetch(zip.groups, g, b, h, c)
      ensures SameDemands(zip.topologies[g], b, zip.topologies[h], c, MappingOf(zip, g, b))
    {
      OneOrderSameDemands(zip.topologies[g], b, zip.topologies[h], c, zip.groups[g].brokers[b], MappingOf(zip, g, b));
    }
  }

  // ----- A range that is lost

  /** One group in brokers 0 and 1, and another in broker 1 only. */
  function TwoGroups(everywhere: bool): Zip {
    Zip([Plan.Group(0, [0, 1], [0, 0], Plan.PerKind, 0), Plan.Group(0, [1], [0], Plan.PerKind, 0)],
        [Topology(everywhere, [0, 1], None, [SegmentRef(0, 0), SegmentRef(1, 0)]),
         Topology(everywhere, [1], None, [SegmentRef(1, 0)])],
        (_, _, _) => PerKind)
  }

  /** What they need of steps 0 to 3. If every broker has the steps, the first group needs nothing of broker 1; dealt
      round-robin it needs only half of them there. The second group takes all of them from broker 1. */
  function TwoDemands(everywhere: bool): (nat, nat) -> Plan.Demand {
    (g: nat, b: nat) =>
      Plan.Demand(Some(if g == 1 || (everywhere && b == 0) then Range(0, 4)
                       else if everywhere then Range(0, 0) else Range(0, 2)), Success)
  }

  lemma TwoDemandsAre(everywhere: bool)
    ensures ProperZip(TwoGroups(everywhere)) && AreDemands(TwoGroups(everywhere), 0, 4, TwoDemands(everywhere))
  {
    var zip := TwoGroups(everywhere);
    var s, t := zip.topologies[0], zip.topologies[1];
    assert s.segments[0].broker == 0 && s.segments[1].broker == 1 && t.segments[0].broker == 1;
    assert Matches(s, 0, None, 0) && Matches(s, 1, None, 1) && Matches(t, 0, None, 0);
    if everywhere {
      EverywhereHeld(s, 4);
      EverywhereHeld(t, 4);
      NothingElsewhere(s, 1, 4);
    } else {
      RoundRobinHeld(s, 0, 4);
      RoundRobinHeld(s, 1, 4);
      RoundRobinHeld(t, 0, 4);
    }
    assert AllLocated(s, 0, 4) && AllLocated(t, 0, 4);
    hide HeldBefore;
    forall g: nat, b: nat | Plan.Has(zip.groups, g, b)
      ensures TwoDemands(everywhere)(g, b).range == DemandOf(zip.topologies[g], b, 0, 4, MappingOf(zip, g, b))
    {
      assert HeldBefore(zip.topologies[g], b, 0) == 0 by {
        NothingBefore(zip.topologies[g], b);
      }
      assert (g == 0 && b == 0) || (g == 0 && b == 1) || (g == 1 && b == 0);
    }
  }

  lemma NothingBefore(t: Topology, b: nat)
    ensures HeldBefore(t, b, 0) == 0
  {
  }

  lemma {:induction false} NothingElsewhere(t: Topology, b: nat, n: nat)
    requires t.everywhere && b > 0
    ensures HeldBefore(t, b, n) == 0
  {
    if n > 0 {
      NothingElsewhere(t, b, n - 1);
    }
  }

  /** The fetch of this zip succeeds, and the second group's range is not in its buffer: the planner took the first
      group's fetch for its own, and compares no ranges of shared fetches. */
  method SharedRangeIsLost(everywhere: bool) returns (status: IOStatus, contents: map<Plan.Buffer, Range>)
    ensures ProperZip(TwoGroups(everywhere)) && AreDemands(TwoGroups(everywhere), 0, 4, TwoDemands(everywhere))
    ensures EveryGroupLocates(TwoGroups(everywhere), 0, 4)
    ensures status == Success && !Plan.InPlace(TwoGroups(everywhere).groups, contents, TwoDemands(everywhere))
  {
    TwoDemandsAre(everywhere);
    hide Plan.PlannedTo, Plan.FilledTo, Plan.Untouched, Plan.AllGo, Plan.AllServed, Plan.InPlace, AreDemands, ProperZip,
      TwoDemands, TwoGroups;
    TwoAreGroups(everywhere);
    var groups := TwoGroups(everywhere).groups;
    var demands := TwoDemands(everywhere);
    var plan := new Plan.ZipFetchPlan(groups);
    TwoPlanned(everywhere, plan.fetches);
    status := plan.FetchAll(demands);
    contents := plan.contents;
    assert status == Success by {
      AllGoes(plan.fetches, demands);
    }
    Plan.FilledIsInPlace(groups, plan.fetches, map[], contents, demands);
  }

  lemma AllGoes(fetches: seq<Plan.Fetch>, demands: (nat, nat) -> Plan.Demand)
    ensures Plan.AllGo(fetches, demands) ==> forall f :: 0 <= f < |fetches| ==> Plan.Goes(fetches, f, demands)
  {
  }

  lemma TwoAreGroups(everywhere: bool)
    ensures ProperZip(TwoGroups(everywhere)) && EveryGroupLocates(TwoGroups(everywhere), 0, 4)
  {
    TwoDemandsAre(everywhere);
  }

  /** The fetch of broker 1 is planned for the first group, and no two planned fetches use one buffer. */
  lemma TwoPlanned(everywhere: bool, fetches: seq<Plan.Fetch>)
    requires Plan.Planned(TwoGroups(everywhere).groups, fetches)
    ensures Plan.InGroups(TwoGroups(everywhere).groups, fetches)
    ensures Plan.AllGo(fetches, TwoDemands(everywhere))
    ensures !Plan.AllServed(TwoGroups(everywhere).groups, fetches, map[], TwoDemands(everywhere))
  {
    var groups := TwoGroups(everywhere).groups;
    Plan.PlanFacts(groups, fetches);
    forall f | 0 <= f < |fetches|
      ensures Plan.Goes(fetches, f, TwoDemands(everywhere))
    {
      TwoReads(everywhere, fetches, f);
    }
    var e := Plan.Server(groups, fetches, 0, 1);
    hide Plan.PlannedTo, Plan.InGroups;
    assert Plan.IsServer(groups, fetches, e, 1, 0);
    assert !Plan.Served(groups, map[], fetches[e], 1, 0, TwoDemands(everywhere));
  }

  lemma TwoReads(everywhere: bool, fetches: seq<Plan.Fetch>, f: nat)
    requires Plan.Planned(TwoGroups(everywhere).groups, fetches) && f < |fetches|
    ensures fetches[f].bufferOf.None?
  {
    hide Plan.Serves, Plan.FirstWrites, TwoDemands;
    if fetches[f].bufferOf.Some? {
      Plan.BufferOfReads(TwoGroups(everywhere).groups, fetches, f);
    }
  }
}
