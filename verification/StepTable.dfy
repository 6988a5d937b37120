/** The rows of one index batch, as values: what they say about the whole history of a stream,
    and how carrying rows over and appending rows keeps it. */
module StepTable {
  import opened Common

  /** A step of a stream, as found by scanning it. */
  datatype Step = Step(kind: nat, key: nat, offset: nat)

  datatype Row = Row(step: Step, ordinal: nat, next: Option<nat>, prev: Option<nat>) {
    function Kind(): nat { step.kind }
  }

  /** The rows with the catalog entries that describe them, one per kind of step. */
  datatype Table = Table(rows: seq<Row>, first: seq<Option<nat>>, last: seq<Option<nat>>, cumulative: seq<nat>)

  // ----- Counting steps of a kind

  function Count(h: seq<Step>, k: nat): (n: nat)
    ensures n <= |h|
  {
    if h == [] then 0 else Count(h[..|h| - 1], k) + if h[|h| - 1].kind == k then 1 else 0
  }

  lemma {:induction false} CountPush(h: seq<Step>, x: Step, k: nat)
    ensures Count(h + [x], k) == Count(h, k) + if x.kind == k then 1 else 0
  {
    assert (h + [x])[..|h|] == h;
  }

  lemma {:induction false} CountGap(h: seq<Step>, a: nat, b: nat, k: nat)
    requires a <= b <= |h|
    requires forall i :: a <= i < b ==> h[i].kind != k
    ensures Count(h[..b], k) == Count(h[..a], k)
  {
    if a < b {
      CountGap(h, a, b - 1, k);
      assert h[..b] == h[..b - 1] + [h[b - 1]];
      CountPush(h[..b - 1], h[b - 1], k);
    }
  }

  lemma {:induction false} CountMonotone(h: seq<Step>, a: nat, b: nat, k: nat)
    requires a <= b <= |h|
    ensures Count(h[..a], k) <= Count(h[..b], k)
    ensures a < b && h[a].kind == k ==> Count(h[..a], k) < Count(h[..b], k)
  {
    if a < b {
      CountMonotone(h, a, b - 1, k);
      assert h[..b] == h[..b - 1] + [h[b - 1]];
      CountPush(h[..b - 1], h[b - 1], k);
    }
  }

  /** The position p is that of the o-th step of kind k in the history. */
  ghost predicate IsNth(h: seq<Step>, k: nat, o: nat, p: nat) {
    p < |h| && h[p].kind == k && Count(h[..p], k) == o
  }

  lemma {:induction false} NthStays(h: seq<Step>, x: Step, k: nat, o: nat, p: nat)
    requires IsNth(h, k, o, p)
    ensures IsNth(h + [x], k, o, p)
  {
    assert (h + [x])[..p] == h[..p];
  }

  lemma {:induction false} NthExists(h: seq<Step>, k: nat, o: nat)
    requires o < Count(h, k)
    ensures exists p: nat :: IsNth(h, k, o, p)
  {
    var n := |h| - 1;
    if h[n].kind == k && Count(h[..n], k) == o {
      assert IsNth(h, k, o, n);
    } else {
      NthExists(h[..n], k, o);
      var p: nat :| IsNth(h[..n], k, o, p);
      assert h[..n][..p] == h[..p];
      assert IsNth(h, k, o, p);
    }
  }

  lemma NthUnique(h: seq<Step>, k: nat, o: nat, p: nat, q: nat)
    requires IsNth(h, k, o, p) && IsNth(h, k, o, q)
    ensures p == q
  {
    if p < q { CountMonotone(h, p, q, k); }
    if q < p { CountMonotone(h, q, p, k); }
  }

  // ----- What a table says

  /** `first`, `last`, `next` and `prev` thread the rows of each kind into one list, in row order. */
  ghost predicate Linked(rows: seq<Row>, first: seq<Option<nat>>, last: seq<Option<nat>>) {
    && |first| == |last|
    && (forall i :: 0 <= i < |rows| ==> rows[i].Kind() < |first|)
    && (forall k :: 0 <= k < |first| ==> FirstIsRight(rows, k, first[k]) && LastIsRight(rows, k, last[k]))
    && (forall i :: 0 <= i < |rows| ==> NextIsRight(rows, i) && PrevIsRight(rows, i))
  }

  ghost predicate FirstIsRight(rows: seq<Row>, k: nat, first: Option<nat>) {
    match first
    case Some(f) => f < |rows| && rows[f].Kind() == k && forall i :: 0 <= i < f ==> rows[i].Kind() != k
    case None => forall i :: 0 <= i < |rows| ==> rows[i].Kind() != k
  }

  ghost predicate LastIsRight(rows: seq<Row>, k: nat, last: Option<nat>) {
    match last
    case Some(l) => l < |rows| && rows[l].Kind() == k && forall i :: l < i < |rows| ==> rows[i].Kind() != k
    case None => forall i :: 0 <= i < |rows| ==> rows[i].Kind() != k
  }

  ghost predicate NextIsRight(rows: seq<Row>, i: nat)
    requires i < |rows|
  {
    match rows[i].next
    case Some(n) => i < n < |rows| && rows[n].Kind() == rows[i].Kind() && forall j :: i < j < n ==>
        rows[j].Kind() != rows[i].Kind()
    case None => forall j :: i < j < |rows| ==> rows[j].Kind() != rows[i].Kind()
  }

  ghost predicate PrevIsRight(rows: seq<Row>, i: nat)
    requires i < |rows|
  {
    match rows[i].prev
    case Some(p) => p < i && rows[p].Kind() == rows[i].Kind() && forall j :: p < j < i ==> rows[j].Kind() != rows[i].Kind()
    case None => forall j :: 0 <= j < i ==> rows[j].Kind() != rows[i].Kind()
  }

  /** Row i holds the history's step at[i], with its count among the steps of its kind. */
  ghost predicate Describes(rows: seq<Row>, h: seq<Step>, at: seq<nat>) {
    && |at| == |rows|
    && forall i :: 0 <= i < |rows| ==> HoldsStep(rows[i], h, at[i])
  }

  ghost predicate HoldsStep(row: Row, h: seq<Step>, p: nat) {
    p < |h| && row.step == h[p] && IsNth(h, row.Kind(), row.ordinal, p)
  }

  /** The rows after the carried ones are the history from `start` on; the carried ones are the
      latest step of each kind before, in the order of kinds. */
  ghost predicate Covers(rows: seq<Row>, h: seq<Step>, at: seq<nat>, carried: nat, start: nat, kinds: nat)
    requires |at| == |rows|
  {
    && carried <= |rows| && start <= |h| && |rows| - carried == |h| - start
    && (forall i :: carried <= i < |rows| ==> at[i] == start + i - carried)
    && (forall i :: 0 <= i < carried ==> at[i] < start && forall p :: at[i] < p < start ==> h[p].kind != rows[i].Kind())
    && (forall i, j :: 0 <= i < j < carried ==> rows[i].Kind() < rows[j].Kind())
    && (forall p :: 0 <= p < start ==> HasRow(rows[..carried], h[p].kind))
    && (forall p :: 0 <= p < |h| ==> h[p].kind < kinds)
  }

  ghost predicate HasRow(rows: seq<Row>, k: nat) {
    exists i :: 0 <= i < |rows| && rows[i].Kind() == k
  }

  /** Ordinals go up by one along the list of a kind, and end at the count of the whole history. */
  ghost predicate Numbered(t: Table, h: seq<Step>) {
    && |t.cumulative| == |t.last|
    && (forall k :: 0 <= k < |t.cumulative| ==> t.cumulative[k] == Count(h, k))
    && (forall k :: 0 <= k < |t.last| && t.last[k].Some? && t.last[k].value < |t.rows| ==>
        t.rows[t.last[k].value].ordinal + 1 == t.cumulative[k])
    && (forall k :: 0 <= k < |t.last| && t.last[k].None? ==> t.cumulative[k] == 0)
    && (forall i :: 0 <= i < |t.rows| && t.rows[i].next.Some? && t.rows[i].next.value < |t.rows| ==>
          t.rows[t.rows[i].next.value].ordinal == t.rows[i].ordinal + 1)
  }

  ghost predicate Good(t: Table, h: seq<Step>, at: seq<nat>, carried: nat, start: nat, kinds: nat) {
    && |t.first| == kinds
    && Linked(t.rows, t.first, t.last)
    && Describes(t.rows, h, at)
    && Covers(t.rows, h, at, carried, start, kinds)
    && Numbered(t, h)
  }

  // ----- Appending a row

  lemma CarriedRow(rows: seq<Row>, h: seq<Step>, at: seq<nat>, carried: nat, start: nat, kinds: nat, p: nat) returns (i: nat)
    requires |at| == |rows| && Covers(rows, h, at, carried, start, kinds) && p < start
    ensures i < carried && rows[i].Kind() == h[p].kind && p <= at[i] < start
  {
    assert HasRow(rows[..carried], h[p].kind);
    i :| 0 <= i < carried && rows[..carried][i].Kind() == h[p].kind;
  }

  function Relinked(rows: seq<Row>, last: Option<nat>, n: nat): (r: seq<Row>)
    requires last.Some? ==> last.value < |rows|
    ensures |r| == |rows|
  {
    if last.Some? then rows[last.value := rows[last.value].(next := Some(n))] else rows
  }

  function Pushed(t: Table, x: Step): Table
    requires x.kind < |t.first| && |t.first| == |t.last| == |t.cumulative|
    requires t.last[x.kind].Some? ==> t.last[x.kind].value < |t.rows|
  {
    var n := |t.rows|;
    Table(Relinked(t.rows, t.last[x.kind], n) + [Row(x, t.cumulative[x.kind], None, t.last[x.kind])],
          if t.last[x.kind].Some? then t.first else t.first[x.kind := Some(n)],
          t.last[x.kind := Some(n)],
          t.cumulative[x.kind := t.cumulative[x.kind] + 1])
  }

  /** The old rows, except that the last one of the new row's kind now points to it. */
  ghost predicate Extends(rows: seq<Row>, rows': seq<Row>, x: Step, last: Option<nat>) {
    && |rows'| == |rows| + 1
    && (forall i :: 0 <= i < |rows| ==> rows'[i].Kind() == rows[i].Kind() && rows'[i].prev == rows[i].prev)
    && (forall i :: 0 <= i < |rows| ==> rows'[i].next == if last == Some(i) then Some(|rows|) else rows[i].next)
    && rows'[|rows|].Kind() == x.kind && rows'[|rows|].prev == last && rows'[|rows|].next == None
  }

  lemma PushKeepsNeighbours(rows: seq<Row>, rows': seq<Row>, x: Step, last: Option<nat>, i: nat)
    requires i < |rows'| && LastIsRight(rows, x.kind, last) && Extends(rows, rows', x, last)
    requires i < |rows| ==> NextIsRight(rows, i) && PrevIsRight(rows, i)
    ensures NextIsRight(rows', i) && PrevIsRight(rows', i)
  {
  }

  lemma PushKeepsEnds(rows: seq<Row>, rows': seq<Row>, x: Step, last: Option<nat>, k: nat, first: Option<nat>,
        end: Option<nat>)
    requires Extends(rows, rows', x, last) && FirstIsRight(rows, k, first) && LastIsRight(rows, k, end)
    ensures k != x.kind ==> FirstIsRight(rows', k, first) && LastIsRight(rows', k, end)
    ensures k == x.kind ==>
        FirstIsRight(rows', k, if end.Some? then first else Some(|rows|)) && LastIsRight(rows', k, Some(|rows|))
  {
  }

  lemma PushKeepsLinks(t: Table, x: Step)
    requires x.kind < |t.first| && |t.first| == |t.last| == |t.cumulative|
    requires Linked(t.rows, t.first, t.last)
    ensures var t' := Pushed(t, x); Linked(t'.rows, t'.first, t'.last)
  {
    var t' := Pushed(t, x);
    assert LastIsRight(t.rows, x.kind, t.last[x.kind]) && FirstIsRight(t.rows, x.kind, t.first[x.kind]);
    assert Extends(t.rows, t'.rows, x, t.last[x.kind]);
    forall i | 0 <= i < |t'.rows|
      ensures NextIsRight(t'.rows, i) && PrevIsRight(t'.rows, i)
    {
      PushKeepsNeighbours(t.rows, t'.rows, x, t.last[x.kind], i);
    }
    forall k | 0 <= k < |t'.first|
      ensures FirstIsRight(t'.rows, k, t'.first[k]) && LastIsRight(t'.rows, k, t'.last[k])
    {
      PushKeepsEnds(t.rows, t'.rows, x, t.last[x.kind], k, t.first[k], t.last[k]);
    }
  }

  ghost predicate SameContent(rows: seq<Row>, rows': seq<Row>) {
    |rows| <= |rows'| && forall i :: 0 <= i < |rows| ==> rows'[i].step == rows[i].step && rows'[i].ordinal == rows[i].ordinal
  }

  lemma {:induction false} PushKeepsDescription(rows: seq<Row>, rows': seq<Row>, h: seq<Step>, at: seq<nat>, x: Step)
    requires Describes(rows, h, at) && SameContent(rows, rows') && |rows'| == |rows| + 1
    requires rows'[|rows|].step == x && rows'[|rows|].ordinal == Count(h, x.kind)
    ensures Describes(rows', h + [x], at + [|h|])
  {
    forall i | 0 <= i < |rows'|
      ensures HoldsStep(rows'[i], h + [x], (at + [|h|])[i])
    {
      if i < |rows| {
        assert HoldsStep(rows[i], h, at[i]);
        NthStays(h, x, rows[i].Kind(), rows[i].ordinal, at[i]);
      } else {
        assert (h + [x])[..|h|] == h;
      }
    }
  }

  lemma PushKeepsCover(rows: seq<Row>, rows': seq<Row>, h: seq<Step>, at: seq<nat>, carried: nat, start: nat, kinds: nat,
        x: Step)
    requires |at| == |rows| && Covers(rows, h, at, carried, start, kinds) && x.kind < kinds
    requires SameContent(rows, rows') && |rows'| == |rows| + 1
    ensures Covers(rows', h + [x], at + [|h|], carried, start, kinds)
  {
    forall p | 0 <= p < start
      ensures HasRow(rows'[..carried], (h + [x])[p].kind)
    {
      var i := CarriedRow(rows, h, at, carried, start, kinds, p);
      assert rows'[..carried][i].Kind() == h[p].kind;
    }
  }

  lemma PushKeepsNumbers(t: Table, h: seq<Step>, x: Step)
    requires x.kind < |t.first| && Linked(t.rows, t.first, t.last) && Numbered(t, h)
    ensures Numbered(Pushed(t, x), h + [x])
  {
    forall k | 0 <= k < |t.cumulative|
      ensures Pushed(t, x).cumulative[k] == Count(h + [x], k)
    {
      CountPush(h, x, k);
    }
    var t' := Pushed(t, x);
    forall i | 0 <= i < |t'.rows| && t'.rows[i].next.Some?
      ensures t'.rows[i].next.value < |t'.rows| ==> t'.rows[t'.rows[i].next.value].ordinal == t'.rows[i].ordinal + 1
    {
      assert i < |t.rows|;
      assert NextIsRight(t.rows, i);
    }
  }

  lemma PushKeepsGood(t: Table, h: seq<Step>, at: seq<nat>, carried: nat, start: nat, kinds: nat, x: Step)
    requires Good(t, h, at, carried, start, kinds) && x.kind < kinds
    ensures Good(Pushed(t, x), h + [x], at + [|h|], carried, start, kinds)
  {
    PushKeepsLinks(t, x);
    var rows' := Pushed(t, x).rows;
    PushKeepsDescription(t.rows, rows', h, at, x);
    PushKeepsCover(t.rows, rows', h, at, carried, start, kinds, x);
    PushKeepsNumbers(t, h, x);
  }

  // ----- Carrying the last row of each kind into the next batch

  /** `c` holds, for the first k kinds, what the next batch starts with. */
  ghost predicate CarriedUpTo(c: Table, t: Table, k: nat)
    requires k <= |t.last| && |t.first| == |t.last| && Linked(t.rows, t.first, t.last)
  {
    && |c.first| == |c.last| == |t.last|
    && c.cumulative == t.cumulative
    && |c.rows| <= k
    && (forall i :: 0 <= i < |c.rows| ==>
          && c.rows[i].Kind() < k && t.last[c.rows[i].Kind()].Some?
          && c.rows[i] == t.rows[t.last[c.rows[i].Kind()].value].(next := None, prev := None)
          && c.last[c.rows[i].Kind()] == Some(i))
    && (forall i, j :: 0 <= i < j < |c.rows| ==> c.rows[i].Kind() < c.rows[j].Kind())
    && (forall j :: 0 <= j < |c.last| ==>
          && c.first[j] == c.last[j] && (c.last[j].Some? <==> j < k && t.last[j].Some?)
          && (c.last[j].Some? ==> c.last[j].value < |c.rows| && c.rows[c.last[j].value].Kind() == j))
  }

  ghost function CarriedAt(c: Table, t: Table, at: seq<nat>): (r: seq<nat>)
    requires |t.first| == |t.last| && Linked(t.rows, t.first, t.last) && CarriedUpTo(c, t, |t.last|) && |at| == |t.rows|
    ensures |r| == |c.rows|
    ensures forall i :: 0 <= i < |r| ==> r[i] == at[t.last[c.rows[i].Kind()].value]
  {
    seq(|c.rows|, i requires 0 <= i < |c.rows| => at[t.last[c.rows[i].Kind()].value])
  }

  /** A row that is the last of its kind holds the latest step of that kind. */
  lemma LastRowIsLatest(t: Table, h: seq<Step>, at: seq<nat>, carried: nat, start: nat, kinds: nat, k: nat, p: nat)
    requires Good(t, h, at, carried, start, kinds) && k < kinds && p < |h| && h[p].kind == k
    ensures t.last[k].Some? && p <= at[t.last[k].value]
  {
    if start <= p {
      var i := p - start + carried;
      assert at[i] == p && t.rows[i].Kind() == k;
    } else {
      var i := CarriedRow(t.rows, h, at, carried, start, kinds, p);
    }
  }

  lemma CarryKeepsGood(c: Table, t: Table, h: seq<Step>, at: seq<nat>, carried: nat, start: nat, kinds: nat)
    requires Good(t, h, at, carried, start, kinds) && CarriedUpTo(c, t, kinds)
    ensures Good(c, h, CarriedAt(c, t, at), |c.rows|, |h|, kinds)
  {
    var at' := CarriedAt(c, t, at);
    forall i | 0 <= i < |c.rows|
      ensures forall p :: at'[i] < p < |h| ==> h[p].kind != c.rows[i].Kind()
    {
      forall p | at'[i] < p < |h|
        ensures h[p].kind != c.rows[i].Kind()
      {
        if h[p].kind == c.rows[i].Kind() {
          LastRowIsLatest(t, h, at, carried, start, kinds, h[p].kind, p);
        }
      }
    }
    forall p | 0 <= p < |h|
      ensures HasRow(c.rows[..|c.rows|], h[p].kind)
    {
      LastRowIsLatest(t, h, at, carried, start, kinds, h[p].kind, p);
      assert c.rows[..|c.rows|][c.last[h[p].kind].value].Kind() == h[p].kind;
    }
    forall i | 0 <= i < |c.rows|
      ensures NextIsRight(c.rows, i) && PrevIsRight(c.rows, i)
    {
    }
  }

  // ----- Which ordinals can be found, and where

  /** The ordinals of a kind with a row: those of this batch, and the carried one before them. */
  ghost predicate Retained(h: seq<Step>, start: nat, k: nat, o: nat)
    requires start <= |h|
  {
    o < Count(h, k) && Count(h[..start], k) <= o + 1
  }

  lemma RowOfRetained(rows: seq<Row>, h: seq<Step>, at: seq<nat>, carried: nat, start: nat, kinds: nat, k: nat, o: nat)
    requires Describes(rows, h, at) && Covers(rows, h, at, carried, start, kinds) && k < kinds && Retained(h, start, k, o)
    ensures exists i :: 0 <= i < |rows| && rows[i].Kind() == k && rows[i].ordinal == o
  {
    NthExists(h, k, o);
    var p: nat :| IsNth(h, k, o, p);
    if start <= p {
      var i := p - start + carried;
      assert at[i] == p && rows[i].Kind() == k && rows[i].ordinal == o;
    } else {
      var i := CarriedRow(rows, h, at, carried, start, kinds, p);
      CountMonotone(h, p, at[i], k);
      CountMonotone(h, at[i], start, k);
    }
  }

  lemma RowIsRetained(rows: seq<Row>, h: seq<Step>, at: seq<nat>, carried: nat, start: nat, kinds: nat, i: nat)
    requires Describes(rows, h, at) && Covers(rows, h, at, carried, start, kinds) && i < |rows|
    ensures Retained(h, start, rows[i].Kind(), rows[i].ordinal)
  {
    var k, p := rows[i].Kind(), at[i];
    assert IsNth(h, k, rows[i].ordinal, p);
    CountMonotone(h, p, |h|, k);
    assert h[..|h|] == h;
    if i < carried {
      CountGap(h, p + 1, start, k);
      assert h[..p + 1] == h[..p] + [h[p]];
      CountPush(h[..p], h[p], k);
    } else {
      CountMonotone(h, start, p, k);
    }
  }

  /** Rows of one kind are in the order of their ordinals. */
  lemma OrdinalsFollowRows(t: Table, h: seq<Step>, at: seq<nat>, carried: nat, start: nat, kinds: nat, i: nat, j: nat)
    requires Good(t, h, at, carried, start, kinds) && i < j < |t.rows| && t.rows[i].Kind() == t.rows[j].Kind()
    ensures t.rows[i].ordinal < t.rows[j].ordinal
  {
    assert IsNth(h, t.rows[i].Kind(), t.rows[i].ordinal, at[i]) && IsNth(h, t.rows[j].Kind(), t.rows[j].ordinal, at[j]);
    assert at[i] < at[j];
    CountMonotone(h, at[i], at[j], t.rows[i].Kind());
  }

  /** How many steps of a kind lie at or before the step of a row scanned in this batch: told by the
      nearest row of that kind, carried rows included. */
  lemma NearestRowCounts(rows: seq<Row>, h: seq<Step>, at: seq<nat>, carried: nat, start: nat, kinds: nat, k: nat, ref: nat,
        r: Option<nat>)
    requires Describes(rows, h, at) && Covers(rows, h, at, carried, start, kinds) && k < kinds && carried <= ref < |rows|
    requires r.Some? ==> r.value <= ref && rows[r.value].Kind() == k && forall i :: r.value < i <= ref ==>
        rows[i].Kind() != k
    requires r.None? ==> forall i :: 0 <= i <= ref ==> rows[i].Kind() != k
    ensures Count(h[..at[ref] + 1], k) == if r.Some? then rows[r.value].ordinal + 1 else 0
  {
    var end := at[ref] + 1;
    forall p | start <= p < end && (r.Some? ==> at[r.value] < p)
      ensures h[p].kind != k
    {
      var i := p - start + carried;
      assert at[i] == p && rows[i].step == h[at[i]];
    }
    match r
    case Some(i) =>
      var q := at[i];
      assert IsNth(h, k, rows[i].ordinal, q);
      assert h[..q + 1] == h[..q] + [h[q]];
      CountPush(h[..q], h[q], k);
      CountGap(h, q + 1, end, k);
    case None =>
      forall p | 0 <= p < start
        ensures h[p].kind != k
      {
        var i := CarriedRow(rows, h, at, carried, start, kinds, p);
      }
      CountGap(h, 0, end, k);
  }
}
