/** The order of steps across the brokers of a chronological format: an incremental
    k-way merge that only places a step once no earlier step can still arrive. */
module Chronology {

  datatype Entry = Entry(ordinal: nat, key: nat)
  datatype Location = Location(broker: nat, ordinal: nat)

  datatype State = State(order: seq<Location>, pending: seq<seq<Entry>>, nextOrdinal: seq<nat>, exhausted: seq<bool>) {
    ghost predicate Shaped() {
      |pending| == |nextOrdinal| == |exhausted|
    }
  }

  ghost function Initial(brokers: nat): State {
    State([], seq(brokers, _ => []), seq(brokers, _ => 0), seq(brokers, _ => false))
  }

  ghost function Added(s: State, b: nat, e: Entry): State
    requires s.Shaped() && b < |s.pending|
  {
    if e.ordinal < s.nextOrdinal[b] then s
    else s.(pending := s.pending[b := s.pending[b] + [e]], nextOrdinal := s.nextOrdinal[b := e.ordinal + 1])
  }

  ghost function MarkedExhausted(s: State, b: nat): State
    requires s.Shaped() && b < |s.pending|
  {
    s.(exhausted := s.exhausted[b := true])
  }

  /** A broker that may still produce a step, but has none waiting, holds up the merge. */
  ghost predicate Blocked(s: State)
    requires s.Shaped()
  {
    exists b :: 0 <= b < |s.pending| && s.pending[b] == [] && !s.exhausted[b]
  }

  ghost predicate NothingPending(s: State) {
    forall b :: 0 <= b < |s.pending| ==> s.pending[b] == []
  }

  /** The waiting step with the least key; ties go to the lower broker. */
  ghost predicate IsBest(pending: seq<seq<Entry>>, b: nat) {
    && b < |pending| && pending[b] != []
    && forall c :: 0 <= c < |pending| && pending[c] != [] ==>
         pending[b][0].key < pending[c][0].key || (pending[b][0].key == pending[c][0].key && b <= c)
  }

  ghost function Taken(s: State, b: nat): State
    requires s.Shaped() && b < |s.pending| && s.pending[b] != []
  {
    s.(order := s.order + [Location(b, s.pending[b][0].ordinal)], pending := s.pending[b := s.pending[b][1..]])
  }

  ghost function Waiting(pending: seq<seq<Entry>>): nat {
    if pending == [] then 0 else |pending[0]| + Waiting(pending[1..])
  }

  lemma {:induction false} WaitingAfterUpdate(pending: seq<seq<Entry>>, b: nat, q: seq<Entry>)
    requires b < |pending|
    ensures Waiting(pending[b := q]) == Waiting(pending) - |pending[b]| + |q|
  {
    if b == 0 {
      assert pending[b := q][1..] == pending[1..];
    } else {
      WaitingAfterUpdate(pending[1..], b - 1, q);
      assert pending[b := q][1..] == pending[1..][b - 1 := q];
    }
  }

  /** As many steps as can be placed, each the best of those waiting at that point. */
  ghost predicate MergesTo(s: State, t: State)
    requires s.Shaped()
    decreases Waiting(s.pending)
  {
    if Blocked(s) || NothingPending(s) then t == s
    else
      exists b: nat ::
        && IsBest(s.pending, b)
        && (WaitingAfterUpdate(s.pending, b, s.pending[b][1..]);
            MergesTo(Taken(s, b), t))
  }

  class ChronologicalOrder {
    var order: seq<Location>
    var pending: seq<seq<Entry>>
    var nextOrdinal: seq<nat>
    var exhausted: seq<bool>

    ghost function Model(): State
      reads this
    {
      State(order, pending, nextOrdinal, exhausted)
    }

    constructor (brokers: nat)
      ensures Model() == Initial(brokers) && Model().Shaped()
    {
      order := [];
      pending := seq(brokers, _ => []);
      nextOrdinal := seq(brokers, _ => 0);
      exhausted := seq(brokers, _ => false);
    }

    method Locate(step: nat) returns (found: bool, loc: Location)
      ensures found <==> step < |order|
      ensures found ==> loc == order[step]
    {
      if step >= |order| {
        return false, Location(0, 0);
      }
      return true, order[step];
    }

    predicate MayIndex(b: nat)
      requires Model().Shaped() && b < |pending|
      reads this
    {
      !exhausted[b] && pending[b] == []
    }

    method SetExhausted(b: nat)
      requires Model().Shaped() && b < |pending|
      modifies this`exhausted
      ensures Model() == MarkedExhausted(old(Model()), b) && Model().Shaped()
    {
      exhausted := exhausted[b := true];
    }

    method Add(b: nat, ordinal: nat, key: nat)
      requires Model().Shaped() && b < |pending|
      modifies this`pending, this`nextOrdinal
      ensures Model() == Added(old(Model()), b, Entry(ordinal, key)) && Model().Shaped()
    {
      if ordinal < nextOrdinal[b] {
        return;
      }
      pending := pending[b := pending[b] + [Entry(ordinal, key)]];
      nextOrdinal := nextOrdinal[b := ordinal + 1];
    }

    method Merge() returns (merged: nat)
      requires Model().Shaped()
      modifies this`order, this`pending
      ensures Model().Shaped() && MergesTo(old(Model()), Model())
      ensures |order| == |old(order)| + merged
    {
      merged := 0;
      while true
        invariant Model().Shaped()
        invariant |order| == |old(order)| + merged
        invariant nextOrdinal == old(nextOrdinal) && exhausted == old(exhausted)
        invariant forall t :: MergesTo(Model(), t) ==> MergesTo(old(Model()), t)
        decreases Waiting(pending)
      {
        var best: nat := |pending|;
        var b: nat := 0;
        while b < |pending|
          invariant b <= |pending|
          invariant forall c :: 0 <= c < b && pending[c] == [] ==> exhausted[c]
          invariant best == |pending| ==> forall c :: 0 <= c < b ==> pending[c] == []
          invariant best != |pending| ==> best < b && pending[best] != []
          invariant best != |pending| ==> forall c :: 0 <= c < b && pending[c] != [] ==>
            pending[best][0].key < pending[c][0].key || (pending[best][0].key == pending[c][0].key && best <= c)
        {
          if pending[b] == [] {
            if !exhausted[b] {
              assert Blocked(Model());
              return;
            }
          } else if best == |pending| || pending[b][0].key < pending[best][0].key {
            best := b;
          }
          b := b + 1;
        }
        if best == |pending| {
          assert NothingPending(Model());
          return;
        }
        ghost var before := Model();
        order := order + [Location(best, pending[best][0].ordinal)];
        WaitingAfterUpdate(pending, best, pending[best][1..]);
        pending := pending[best := pending[best][1..]];
        merged := merged + 1;
        assert IsBest(before.pending, best) && Model() == Taken(before, best);
        assert !Blocked(before) && !NothingPending(before);
      }
    }
  }

  // ----- What the merge is for: one sort of everything by (key, broker, ordinal)

  datatype Item = Item(key: nat, broker: nat, ordinal: nat)

  predicate Less(x: Item, y: Item) {
    x.key < y.key || (x.key == y.key && (x.broker < y.broker || (x.broker == y.broker && x.ordinal < y.ordinal)))
  }

  ghost predicate Sorted(items: seq<Item>) {
    forall i, j :: 0 <= i < j < |items| ==> Less(items[i], items[j])
  }

  function ItemAt(streams: seq<seq<Entry>>, b: nat, i: nat): Item
    requires b < |streams| && i < |streams[b]|
  {
    Item(streams[b][i].key, b, streams[b][i].ordinal)
  }

  ghost predicate HasItem(streams: seq<seq<Entry>>, it: Item) {
    exists b: nat, i: nat :: b < |streams| && i < |streams[b]| && it == ItemAt(streams, b, i)
  }

  /** The reference: every step of every stream, in one sorted list. */
  ghost predicate IsFullOrder(streams: seq<seq<Entry>>, full: seq<Item>) {
    Sorted(full) && forall it :: it in full <==> HasItem(streams, it)
  }

  lemma {:induction false} InsertItem(items: seq<Item>, it: Item) returns (r: seq<Item>)
    requires Sorted(items) && it !in items
    ensures Sorted(r) && forall x :: x in r <==> x in items || x == it
  {
    if items == [] {
      return [it];
    }
    var n := |items| - 1;
    var front, last := items[..n], items[n];
    assert items == front + [last];
    if Less(last, it) {
      r := items + [it];
    } else {
      var q := InsertItem(front, it);
      forall x | x in q
        ensures Less(x, last)
      {
        assert x in front ==> exists i :: 0 <= i < n && items[i] == x;
      }
      r := q + [last];
    }
  }

  ghost predicate HasItemBefore(streams: seq<seq<Entry>>, it: Item, b: nat, i: nat) {
    exists c: nat, j: nat :: c < |streams| && j < |streams[c]| && (c < b || (c == b && j < i)) && it == ItemAt(streams, c, j)
  }

  /** There is such a list: no two steps have the same place. */
  lemma FullOrderExists(streams: seq<seq<Entry>>) returns (full: seq<Item>)
    requires InTimeOrder(streams)
    ensures IsFullOrder(streams, full)
  {
    full := [];
    for b := 0 to |streams|
      invariant Sorted(full) && forall it :: it in full <==> HasItemBefore(streams, it, b, 0)
    {
      for i := 0 to |streams[b]|
        invariant Sorted(full) && forall it :: it in full <==> HasItemBefore(streams, it, b, i)
      {
        var next := ItemAt(streams, b, i);
        assert !HasItemBefore(streams, next, b, i);
        full := InsertItem(full, next);
        forall it
          ensures HasItemBefore(streams, it, b, i + 1) <==> HasItemBefore(streams, it, b, i) || it == next
        {
        }
      }
      forall it
        ensures HasItemBefore(streams, it, b + 1, 0) <==> HasItemBefore(streams, it, b, |streams[b]|)
      {
      }
    }
    forall it
      ensures HasItemBefore(streams, it, |streams|, 0) <==> HasItem(streams, it)
    {
    }
  }

  function Places(items: seq<Item>): (places: seq<Location>)
    ensures |places| == |items|
    ensures forall i :: 0 <= i < |items| ==> places[i] == Location(items[i].broker, items[i].ordinal)
  {
    seq(|items|, i requires 0 <= i < |items| => Location(items[i].broker, items[i].ordinal))
  }

  /** Each stream counts its steps up and never goes back in time. */
  ghost predicate InTimeOrder(streams: seq<seq<Entry>>) {
    forall b, i, j :: 0 <= b < |streams| && 0 <= i < j < |streams[b]| ==>
      streams[b][i].ordinal < streams[b][j].ordinal && streams[b][i].key <= streams[b][j].key
  }

  datatype Op = Add(broker: nat, entry: Entry) | SetExhausted(broker: nat) | Merge

  ghost function NextAfter(stream: seq<Entry>, seen: nat): nat
    requires seen <= |stream|
  {
    if seen == 0 then 0 else stream[seen - 1].ordinal + 1
  }

  ghost predicate Counts(streams: seq<seq<Entry>>, counts: seq<nat>) {
    |counts| == |streams| && forall b :: 0 <= b < |streams| ==> counts[b] <= |streams[b]|
  }

  /** An operation the data source may perform when `seen[b]` steps of stream b were added:
      add a step again or the next one of its stream, or declare a fully added stream exhausted. */
  ghost predicate Legal(streams: seq<seq<Entry>>, seen: seq<nat>, op: Op)
    requires Counts(streams, seen)
  {
    match op
    case Add(b, e) => b < |streams| && exists i :: 0 <= i <= seen[b] && i < |streams[b]| && e == streams[b][i]
    case SetExhausted(b) => b < |streams| && seen[b] == |streams[b]|
    case Merge => true
  }

  ghost function SeenAfter(streams: seq<seq<Entry>>, seen: seq<nat>, op: Op): (r: seq<nat>)
    requires Counts(streams, seen) && InTimeOrder(streams) && Legal(streams, seen, op)
    ensures Counts(streams, r)
  {
    match op
    case Add(b, e) =>
      if e.ordinal < NextAfter(streams[b], seen[b]) then seen
      else
        var i :| 0 <= i <= seen[b] && i < |streams[b]| && e == streams[b][i];
        seen[b := seen[b] + 1]
    case _ => seen
  }

  ghost predicate Does(s: State, op: Op, t: State)
    requires s.Shaped()
  {
    match op
    case Add(b, e) => b < |s.pending| && t == Added(s, b, e)
    case SetExhausted(b) => b < |s.pending| && t == MarkedExhausted(s, b)
    case Merge => MergesTo(s, t)
  }

  /** The states of a run in which the operations interleave in any legal way. */
  ghost predicate IsRun(streams: seq<seq<Entry>>, ops: seq<Op>, states: seq<State>, seen: seq<seq<nat>>)
    requires InTimeOrder(streams)
  {
    && |states| == |seen| == |ops| + 1
    && states[0] == Initial(|streams|)
    && seen[0] == seq(|streams|, _ => 0)
    && forall i :: 0 <= i < |ops| ==>
         && states[i].Shaped() && Counts(streams, seen[i]) && Legal(streams, seen[i], ops[i])
         && Does(states[i], ops[i], states[i + 1])
         && seen[i + 1] == SeenAfter(streams, seen[i], ops[i])
  }

  /** What every state keeps: `items` are the placed steps, the first took[b] of each stream,
      and every step not placed comes after every step that is. */
  ghost predicate Inv(streams: seq<seq<Entry>>, s: State, seen: seq<nat>, took: seq<nat>, items: seq<Item>) {
    && Tracks(streams, s, seen, took)
    && s.order == Places(items)
    && Placed(streams, took, items)
  }

  /** The waiting steps of stream b are its steps took[b] to seen[b]. */
  ghost predicate Tracks(streams: seq<seq<Entry>>, s: State, seen: seq<nat>, took: seq<nat>) {
    && s.Shaped() && |s.pending| == |streams|
    && Counts(streams, seen) && Counts(streams, took)
    && (forall b :: 0 <= b < |streams| ==> took[b] <= seen[b] && s.pending[b] == streams[b][took[b]..seen[b]])
    && (forall b :: 0 <= b < |streams| ==> s.nextOrdinal[b] == NextAfter(streams[b], seen[b]))
    && (forall b :: 0 <= b < |streams| && s.exhausted[b] ==> seen[b] == |streams[b]|)
  }

  ghost predicate Placed(streams: seq<seq<Entry>>, took: seq<nat>, items: seq<Item>)
    requires Counts(streams, took)
  {
    && Sorted(items)
    && (forall it :: it in items ==> exists b: nat, i: nat :: b < |streams| && i < took[b] && it == ItemAt(streams, b, i))
    && (forall b: nat, i: nat :: b < |streams| && i < took[b] ==> ItemAt(streams, b, i) in items)
    && (forall it, b: nat, i: nat :: it in items && b < |streams| && took[b] <= i < |streams[b]| ==>
        Less(it, ItemAt(streams, b, i)))
  }

  /** The best waiting step comes before everything else that is not placed, waiting or not. */
  ghost predicate PrecedesRest(streams: seq<seq<Entry>>, took: seq<nat>, best: nat)
    requires Counts(streams, took) && best < |streams| && took[best] < |streams[best]|
  {
    forall b: nat, i: nat :: b < |streams| && took[b] <= i < |streams[b]| && !(b == best && i == took[b]) ==>
      Less(ItemAt(streams, best, took[best]), ItemAt(streams, b, i))
  }

  lemma BestPrecedesRest(streams: seq<seq<Entry>>, s: State, seen: seq<nat>, took: seq<nat>, best: nat)
    requires InTimeOrder(streams) && Tracks(streams, s, seen, took)
    requires !Blocked(s) && IsBest(s.pending, best)
    ensures took[best] < |streams[best]| && s.pending[best][0] == streams[best][took[best]]
    ensures PrecedesRest(streams, took, best)
  {
    assert s.pending[best] == streams[best][took[best]..seen[best]];
    assert forall c :: 0 <= c < |s.pending| && s.pending[c] == [] ==> s.exhausted[c];
    forall b: nat, i: nat | b < |streams| && took[b] <= i < |streams[b]| && !(b == best && i == took[b])
      ensures Less(ItemAt(streams, best, took[best]), ItemAt(streams, b, i))
    {
      assert s.pending[b] == streams[b][took[b]..seen[b]];
      if b != best {
        assert s.pending[b][0] == streams[b][took[b]];
      }
    }
  }

  lemma PlacedGrows(streams: seq<seq<Entry>>, took: seq<nat>, items: seq<Item>, best: nat)
    requires Counts(streams, took) && Placed(streams, took, items)
    requires best < |streams| && took[best] < |streams[best]| && PrecedesRest(streams, took, best)
    ensures Placed(streams, took[best := took[best] + 1], items + [ItemAt(streams, best, took[best])])
  {
    var next := ItemAt(streams, best, took[best]);
    var took', items' := took[best := took[best] + 1], items + [next];
    forall i | 0 <= i < |items|
      ensures Less(items[i], next)
    {
      assert items[i] in items;
    }
    assert Sorted(items');
    forall it | it in items'
      ensures exists b: nat, i: nat :: b < |streams| && i < took'[b] && it == ItemAt(streams, b, i)
    {
      if it in items {
        var b: nat, i: nat :| b < |streams| && i < took[b] && it == ItemAt(streams, b, i);
        assert i < took'[b];
      } else {
        assert it == ItemAt(streams, best, took[best]) && took[best] < took'[best];
      }
    }
  }

  lemma TakenKeepsInv(streams: seq<seq<Entry>>, s: State, seen: seq<nat>, took: seq<nat>, items: seq<Item>, best: nat)
    requires InTimeOrder(streams) && Inv(streams, s, seen, took, items)
    requires !Blocked(s) && IsBest(s.pending, best)
    ensures took[best] < |streams[best]|
    ensures Inv(streams, Taken(s, best), seen, took[best := took[best] + 1], items + [ItemAt(streams, best, took[best])])
  {
    BestPrecedesRest(streams, s, seen, took, best);
    PlacedGrows(streams, took, items, best);
    assert s.pending[best] == streams[best][took[best]..seen[best]];
    assert s.pending[best][1..] == streams[best][took[best] + 1..seen[best]];
    assert Taken(s, best).order == Places(items + [ItemAt(streams, best, took[best])]);
  }

  lemma {:induction false} MergeKeepsInv(streams: seq<seq<Entry>>, s: State, t: State, seen: seq<nat>, took: seq<nat>,
        items: seq<Item>)
    returns (took': seq<nat>, items': seq<Item>)
    requires InTimeOrder(streams) && Inv(streams, s, seen, took, items) && MergesTo(s, t)
    ensures Inv(streams, t, seen, took', items') && (Blocked(t) || NothingPending(t))
    ensures t.exhausted == s.exhausted
    decreases Waiting(s.pending)
  {
    if Blocked(s) || NothingPending(s) {
      return took, items;
    }
    var b: nat :| IsBest(s.pending, b) &&
      (WaitingAfterUpdate(s.pending, b, s.pending[b][1..]); MergesTo(Taken(s, b), t));
    WaitingAfterUpdate(s.pending, b, s.pending[b][1..]);
    TakenKeepsInv(streams, s, seen, took, items, b);
    took', items' := MergeKeepsInv(streams, Taken(s, b), t, seen,
      took[b := took[b] + 1], items + [ItemAt(streams, b, took[b])]);
  }

  lemma AddKeepsInv(streams: seq<seq<Entry>>, s: State, seen: seq<nat>, took: seq<nat>, items: seq<Item>, b: nat, e: Entry)
    requires InTimeOrder(streams) && Inv(streams, s, seen, took, items)
    requires Legal(streams, seen, Add(b, e))
    ensures Inv(streams, Added(s, b, e), SeenAfter(streams, seen, Add(b, e)), took, items)
  {
    var i :| 0 <= i <= seen[b] && i < |streams[b]| && e == streams[b][i];
    if e.ordinal >= s.nextOrdinal[b] {
      assert i == seen[b];
      var s' := Added(s, b, e);
      assert s'.pending[b] == streams[b][took[b]..seen[b] + 1];
    }
  }

  lemma ExhaustedKeepsInv(streams: seq<seq<Entry>>, s: State, seen: seq<nat>, took: seq<nat>, items: seq<Item>, b: nat)
    requires InTimeOrder(streams) && Inv(streams, s, seen, took, items)
    requires Legal(streams, seen, SetExhausted(b))
    ensures Inv(streams, MarkedExhausted(s, b), seen, took, items)
  {
  }

  lemma {:induction false} RunKeepsInv(streams: seq<seq<Entry>>, ops: seq<Op>, states: seq<State>, seen: seq<seq<nat>>,
        n: nat)
    returns (took: seq<nat>, items: seq<Item>)
    requires InTimeOrder(streams) && IsRun(streams, ops, states, seen) && n <= |ops|
    ensures Inv(streams, states[n], seen[n], took, items)
    ensures n > 0 && ops[n - 1] == Merge ==> Blocked(states[n]) || NothingPending(states[n])
  {
    if n == 0 {
      took, items := seq(|streams|, _ => 0), [];
      assert Places(items) == [];
      return;
    }
    took, items := RunKeepsInv(streams, ops, states, seen, n - 1);
    var s, t, op := states[n - 1], states[n], ops[n - 1];
    assert Does(s, op, t);
    match op
    case Add(b, e) => AddKeepsInv(streams, s, seen[n - 1], took, items, b, e);
    case SetExhausted(b) => ExhaustedKeepsInv(streams, s, seen[n - 1], took, items, b);
    case Merge => took, items := MergeKeepsInv(streams, s, t, seen[n - 1], took, items);
  }

  /** A sorted list whose members precede everything else of a larger sorted list starts it. */
  lemma {:induction false} SortedHead(items: seq<Item>, full: seq<Item>, n: nat)
    requires Sorted(items) && Sorted(full) && n <= |items|
    requires forall it :: it in items ==> it in full
    requires forall it, other :: it in items && other in full && other !in items ==> Less(it, other)
    ensures n <= |full| && items[..n] == full[..n]
  {
    if n == 0 { return; }
    var m := n - 1;
    SortedHead(items, full, m);
    assert items[m] in items;
    var j :| 0 <= j < |full| && full[j] == items[m];
    assert j >= m by {
      assert forall i :: 0 <= i < m ==> full[i] == full[..m][i] == items[..m][i] == items[i];
    }
    assert full[m] in items by {
      assert full[m] in full;
      assert j > m ==> Less(full[m], items[m]);
    }
    var i :| 0 <= i < |items| && items[i] == full[m];
    assert i >= m by {
      assert forall i :: 0 <= i < m ==> full[i] == full[..m][i] == items[..m][i] == items[i];
    }
    assert i == m;
    assert items[..n] == items[..m] + [items[m]] && full[..n] == full[..m] + [full[m]];
  }

  /** The placed steps start the full order; and once every stream is exhausted with nothing waiting,
      they are the full order. */
  /** With every stream exhausted and nothing waiting, every step is placed. */
  lemma AllPlaced(streams: seq<seq<Entry>>, s: State, seen: seq<nat>, took: seq<nat>, items: seq<Item>, full: seq<Item>)
    requires Inv(streams, s, seen, took, items) && IsFullOrder(streams, full)
    requires NothingPending(s) && (forall b :: 0 <= b < |s.exhausted| ==> s.exhausted[b])
    ensures forall it :: it in full ==> it in items
  {
    hide InTimeOrder;
    forall it | it in full
      ensures it in items
    {
      assert HasItem(streams, it);
      var b: nat, i: nat :| b < |streams| && i < |streams[b]| && it == ItemAt(streams, b, i);
      assert s.pending[b] == streams[b][took[b]..seen[b]];
      assert i < took[b];
    }
  }

  lemma InvIsPrefixOfSort(streams: seq<seq<Entry>>, s: State, seen: seq<nat>, took: seq<nat>, items: seq<Item>,
        full: seq<Item>)
    requires InTimeOrder(streams) && Inv(streams, s, seen, took, items) && IsFullOrder(streams, full)
    ensures s.order <= Places(full)
    ensures NothingPending(s) && (forall b :: 0 <= b < |s.exhausted| ==> s.exhausted[b]) ==> s.order == Places(full)
  {
    forall it | it in items
      ensures it in full
    {
      assert HasItem(streams, it);
    }
    forall it, other | it in items && other in full && other !in items
      ensures Less(it, other)
    {
      assert HasItem(streams, other);
    }
    SortedHead(items, full, |items|);
    assert items[..|items|] == items;
    if NothingPending(s) && (forall b :: 0 <= b < |s.exhausted| ==> s.exhausted[b]) {
      AllPlaced(streams, s, seen, took, items, full);
      SortedHead(full, items, |full|);
      assert full[..|full|] == full;
    }
  }

  /** In every run, the placed steps start the full order; and once every stream is exhausted
      and merged, they are the full order. */
  lemma MergedIsPrefixOfSort(streams: seq<seq<Entry>>, ops: seq<Op>, states: seq<State>, seen: seq<seq<nat>>,
        full: seq<Item>)
    requires InTimeOrder(streams) && IsRun(streams, ops, states, seen) && IsFullOrder(streams, full)
    ensures states[|ops|].order <= Places(full)
    ensures |ops| > 0 && ops[|ops| - 1] == Merge && (forall b :: 0 <= b < |states[|ops|].exhausted| ==>
        states[|ops|].exhausted[b])
            ==> states[|ops|].order == Places(full)
  {
    var took, items := RunKeepsInv(streams, ops, states, seen, |ops|);
    InvIsPrefixOfSort(streams, states[|ops|], seen[|ops|], took, items, full);
  }

  /** The full order exists: it is what any complete run arrives at. Hence how the streams were
      cut into index batches, and how adding and merging interleaved, never shows in the result. */
  lemma CompleteRunsAgree(streams: seq<seq<Entry>>, ops: seq<Op>, states: seq<State>, seen: seq<seq<nat>>,
                          ops': seq<Op>, states': seq<State>, seen': seq<seq<nat>>)
    requires InTimeOrder(streams) && IsRun(streams, ops, states, seen) && IsRun(streams, ops', states', seen')
    requires |ops| > 0 && ops[|ops| - 1] == Merge && states[|ops|].Shaped()
    requires forall b :: 0 <= b < |states[|ops|].exhausted| ==> states[|ops|].exhausted[b]
    ensures exists full :: IsFullOrder(streams, full) && states[|ops|].order == Places(full)
    ensures states'[|ops'|].order <= states[|ops|].order
  {
    var last := states[|ops|];
    var took, items := RunKeepsInv(streams, ops, states, seen, |ops|);
    assert NothingPending(last);
    forall b | 0 <= b < |streams|
      ensures took[b] == |streams[b]|
    {
      assert last.pending[b] == streams[b][took[b]..seen[|ops|][b]];
    }
    assert IsFullOrder(streams, items);
    MergedIsPrefixOfSort(streams, ops', states', seen', items);
  }

  /** A merge is as long as it can be: it stops only when a stream that is not exhausted has
      nothing waiting, and a stopped merge placed nothing that it might have to take back. */
  lemma MergeIsMaximal(s: State, t: State)
    requires s.Shaped() && MergesTo(s, t)
    ensures t.Shaped() && s.order <= t.order && (Blocked(t) || NothingPending(t))
    ensures t.order == s.order ==> Blocked(s) || NothingPending(s)
    decreases Waiting(s.pending)
  {
    if !(Blocked(s) || NothingPending(s)) {
      var b: nat :| IsBest(s.pending, b) &&
        (WaitingAfterUpdate(s.pending, b, s.pending[b][1..]); MergesTo(Taken(s, b), t));
      WaitingAfterUpdate(s.pending, b, s.pending[b][1..]);
      MergeIsMaximal(Taken(s, b), t);
    }
  }

  /** What a merge places was waiting when it began, and what waits after it was waiting before. */
  lemma {:induction false} MergeTakesPending(s: State, t: State)
    requires s.Shaped() && MergesTo(s, t)
    ensures t.Shaped() && |t.pending| == |s.pending| && t.nextOrdinal == s.nextOrdinal && t.exhausted == s.exhausted
    ensures s.order <= t.order
    ensures forall i :: |s.order| <= i < |t.order| ==>
              t.order[i].broker < |s.pending| && exists e ::
                  e in s.pending[t.order[i].broker] && e.ordinal == t.order[i].ordinal
    ensures forall b, e :: 0 <= b < |t.pending| && e in t.pending[b] ==> e in s.pending[b]
    decreases Waiting(s.pending)
  {
    if !(Blocked(s) || NothingPending(s)) {
      var b: nat :| IsBest(s.pending, b) &&
        (WaitingAfterUpdate(s.pending, b, s.pending[b][1..]); MergesTo(Taken(s, b), t));
      WaitingAfterUpdate(s.pending, b, s.pending[b][1..]);
      var mid := Taken(s, b);
      MergeTakesPending(mid, t);
      assert forall c, e :: 0 <= c < |mid.pending| && e in mid.pending[c] ==> e in s.pending[c];
      forall i | |s.order| <= i < |t.order|
        ensures t.order[i].broker < |s.pending| && exists e ::
            e in s.pending[t.order[i].broker] && e.ordinal == t.order[i].ordinal
      {
        if i == |s.order| {
          assert t.order[i] == mid.order[i] && s.pending[b][0] in s.pending[b];
        } else {
          var e :| e in mid.pending[t.order[i].broker] && e.ordinal == t.order[i].ordinal;
          assert e in s.pending[t.order[i].broker];
        }
      }
    }
  }

  // ----- Adding the steps of an index batch

  ghost function AddedAll(s: State, b: nat, es: seq<Entry>): (r: State)
    requires s.Shaped() && b < |s.pending|
    ensures r.Shaped() && |r.pending| == |s.pending|
  {
    if es == [] then s else Added(AddedAll(s, b, es[..|es| - 1]), b, es[|es| - 1])
  }

  /** How many of some consecutive steps come before the ordinal `next`. */
  function KnownOf(next: nat, es: seq<Entry>): (n: nat)
    ensures n <= |es|
  {
    if es == [] || next >= es[0].ordinal + |es| then |es| else if next < es[0].ordinal then 0 else next - es[0].ordinal
  }

  ghost function WithFresh(s: State, b: nat, es: seq<Entry>, known: nat): State
    requires s.Shaped() && b < |s.pending| && known <= |es|
  {
    s.(pending := s.pending[b := s.pending[b] + es[known..]], nextOrdinal := s.nextOrdinal[b := s.nextOrdinal[b] + |es| - known])
  }

  /** Adding one more step, either known or the next fresh one. */
  lemma AddedLast(s: State, b: nat, es: seq<Entry>, known: nat)
    requires s.Shaped() && b < |s.pending| && |es| > 0
    requires known < |es| ==> es[|es| - 1].ordinal == s.nextOrdinal[b] + |es| - 1 - known
    requires known == |es| ==> es[|es| - 1].ordinal < s.nextOrdinal[b]
    requires known <= |es|
    ensures Added(WithFresh(s, b, es[..|es| - 1], if known < |es| then known
        else known - 1), b, es[|es| - 1]) == WithFresh(s, b, es, known)
  {
    var n := |es| - 1;
    if known == |es| {
      assert es[..n][n..] == es[known..];
    } else {
      assert es[known..] == es[..n][known..] + [es[n]];
      assert (s.pending[b] + es[..n][known..]) + [es[n]] == s.pending[b] + es[known..];
    }
  }

  /** Of consecutive steps, those not seen before end up waiting, and only those. */
  lemma {:induction false} AddedAllConsecutive(s: State, b: nat, es: seq<Entry>)
    requires s.Shaped() && b < |s.pending|
    requires forall i :: 0 <= i < |es| ==> es[i].ordinal == es[0].ordinal + i
    requires |es| > 0 ==> es[0].ordinal <= s.nextOrdinal[b]
    ensures AddedAll(s, b, es) == WithFresh(s, b, es, KnownOf(s.nextOrdinal[b], es))
  {
    hide Added, WithFresh;
    if es == [] {
      WithNothing(s, b);
    } else {
      AddedAllConsecutive(s, b, es[..|es| - 1]);
      AddedLast(s, b, es, KnownOf(s.nextOrdinal[b], es));
    }
  }

  lemma WithNothing(s: State, b: nat)
    requires s.Shaped() && b < |s.pending|
    ensures WithFresh(s, b, [], 0) == s
  {
    assert s.pending[b] + [] == s.pending[b];
    assert s.pending[b := s.pending[b]] == s.pending && s.nextOrdinal[b := s.nextOrdinal[b]] == s.nextOrdinal;
  }
}
