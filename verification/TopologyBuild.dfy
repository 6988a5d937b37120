/** Building a group's topology: the segments found are freed of duplicates, sorted, and given logical slots. */
module TopologyBuild {

  /** A segment of a broker, as a metadata entry of some access pattern names it. */
  datatype Segment = Segment(broker: nat, id: nat, pattern: nat)

  predicate Same(x: Segment, y: Segment) {
    x.broker == y.broker && x.id == y.id
  }

  ghost predicate NoDuplicates(segments: seq<Segment>) {
    forall i, j :: 0 <= i < j < |segments| ==> !Same(segments[i], segments[j])
  }

  ghost predicate Knows(segments: seq<Segment>, x: Segment) {
    exists i :: 0 <= i < |segments| && Same(segments[i], x)
  }

  /** The earliest match of its broker and segment. */
  ghost predicate IsFirst(matches: seq<Segment>, x: Segment) {
    exists m :: 0 <= m < |matches| && matches[m] == x && !Knows(matches[..m], x)
  }

  /** The first match of each broker's segments, in the order they are visited. */
  ghost function Firsts(matches: seq<Segment>): seq<Segment> {
    if matches == [] then []
    else
      var n := |matches| - 1;
      Firsts(matches[..n]) + if Knows(matches[..n], matches[n]) then [] else [matches[n]]
  }

  /** They know whatever the matches do. */
  lemma {:induction false} FirstsKnow(matches: seq<Segment>, x: Segment)
    ensures Knows(Firsts(matches), x) <==> Knows(matches, x)
  {
    if matches != [] {
      var n := |matches| - 1;
      FirstsKnow(matches[..n], x);
      FirstsKnow(matches[..n], matches[n]);
      KnowsMore(matches[..n], matches[n], x);
      KnowsMore(Firsts(matches[..n]), matches[n], x);
      assert matches[..n] + [matches[n]] == matches;
      SameKnown(matches[..n], matches[n], x);
      assert Firsts(matches[..n]) + [] == Firsts(matches[..n]);
    }
  }

  lemma KnowsMore(segments: seq<Segment>, y: Segment, x: Segment)
    ensures Knows(segments + [y], x) <==> Knows(segments, x) || Same(y, x)
  {
    var more := segments + [y];
    if Knows(segments, x) {
      var i :| 0 <= i < |segments| && Same(segments[i], x);
      assert Same(more[i], x);
    }
    if Same(y, x) {
      assert Same(more[|segments|], x);
    }
  }

  lemma SameKnown(segments: seq<Segment>, y: Segment, x: Segment)
    ensures Same(y, x) && Knows(segments, y) ==> Knows(segments, x)
  {
  }

  lemma {:induction false} FirstsGrow(matches: seq<Segment>, m: nat)
    requires m <= |matches|
    ensures Firsts(matches[..m]) <= Firsts(matches)
  {
    if m < |matches| {
      FirstsGrow(matches[..|matches| - 1], m);
      assert matches[..|matches| - 1][..m] == matches[..m];
    } else {
      assert matches[..m] == matches;
    }
  }

  /** Of the matching entries, in the order they are visited, the first of each broker's segments, while there
      is room. */
  method Collect(matches: seq<Segment>, maxSegments: nat) returns (segments: seq<Segment>)
    ensures segments <= Firsts(matches) && (|segments| == maxSegments || segments == Firsts(matches))
    ensures |segments| <= maxSegments && NoDuplicates(segments)
    ensures forall i :: 0 <= i < |segments| ==> IsFirst(matches, segments[i])
    ensures |segments| < maxSegments ==> forall m :: 0 <= m < |matches| ==> Knows(segments, matches[m])
  {
    hide IsFirst;
    segments := [];
    for m := 0 to |matches|
      invariant segments <= Firsts(matches[..m]) && (|segments| < maxSegments ==> segments == Firsts(matches[..m]))
      invariant |segments| <= maxSegments && NoDuplicates(segments)
      invariant forall i :: 0 <= i < |segments| ==> IsFirst(matches, segments[i])
      invariant |segments| < maxSegments ==> forall k :: 0 <= k < m ==> Knows(segments, matches[k])
    {
      FirstsNext(matches, m);
      if |segments| == maxSegments {
        FirstsGrow(matches, m);
        return;
      }
      FirstsKnow(matches[..m], matches[m]);
      var duplicate := IsKnown(segments, matches[m]);
      if !duplicate {
        FirstMatch(matches, segments, m);
        StillKnown(matches, segments, m);
        segments := segments + [matches[m]];
      }
    }
    assert matches[..|matches|] == matches;
  }

  lemma FirstsNext(matches: seq<Segment>, m: nat)
    requires m < |matches|
    ensures Firsts(matches[..m + 1]) == Firsts(matches[..m]) + if Knows(matches[..m], matches[m]) then [] else [matches[m]]
  {
    assert matches[..m + 1][..m] == matches[..m];
  }

  method IsKnown(segments: seq<Segment>, x: Segment) returns (known: bool)
    ensures known <==> Knows(segments, x)
  {
    for k := 0 to |segments|
      invariant forall j :: 0 <= j < k ==> !Same(segments[j], x)
    {
      if Same(segments[k], x) {
        return true;
      }
    }
    return false;
  }

  lemma FirstMatch(matches: seq<Segment>, segments: seq<Segment>, m: nat)
    requires m < |matches| && !Knows(segments, matches[m]) && forall k :: 0 <= k < m ==> Knows(segments, matches[k])
    ensures IsFirst(matches, matches[m])
  {
    forall k | 0 <= k < m
      ensures !Same(matches[k], matches[m])
    {
      assert Knows(segments, matches[k]);
      var i :| 0 <= i < |segments| && Same(segments[i], matches[k]);
      assert !Same(segments[i], matches[m]);
    }
    assert !Knows(matches[..m], matches[m]);
  }

  lemma StillKnown(matches: seq<Segment>, segments: seq<Segment>, m: nat)
    requires m < |matches| && forall k :: 0 <= k < m ==> Knows(segments, matches[k])
    ensures forall k :: 0 <= k < m + 1 ==> Knows(segments + [matches[m]], matches[k])
  {
    var more := segments + [matches[m]];
    forall k | 0 <= k < m + 1
      ensures Knows(more, matches[k])
    {
      if k < m {
        assert Knows(segments, matches[k]);
        var i :| 0 <= i < |segments| && Same(segments[i], matches[k]);
        assert more[i] == segments[i];
      } else {
        assert more[|segments|] == matches[k];
      }
    }
  }

  // ----- Sorting

  method Smallest(keys: seq<nat>) returns (least: nat)
    requires keys != []
    ensures least in keys && forall k :: 0 <= k < |keys| ==> least <= keys[k]
  {
    least := keys[0];
    for j := 0 to |keys|
      invariant least in keys && forall k :: 0 <= k < j ==> least <= keys[k]
    {
      if keys[j] < least {
        least := keys[j];
      }
    }
  }

  ghost predicate IsPermutation(index: seq<nat>, n: nat) {
    && |index| == n
    && (forall i :: 0 <= i < n ==> index[i] < n)
    && (forall i, j :: 0 <= i < j < n ==> index[i] != index[j])
  }

  ghost predicate Ascending(index: seq<nat>, keys: seq<nat>, n: nat)
    requires IsPermutation(index, |keys|) && n <= |index|
  {
    forall i, j :: 0 <= i < n && i < j < |index| ==> keys[index[i]] <= keys[index[j]]
  }

  /** Selection sort of the positions by key, in place; equal keys may change order. */
  method SortPositions(keys: seq<nat>) returns (index: array<nat>)
    requires keys != []
    ensures IsPermutation(index[..], |keys|) && Ascending(index[..], keys, |keys|)
  {
    var n := |keys|;
    var smallest := Smallest(keys);
    index := new nat[n](j => j);
    for i := 0 to n - 1
      invariant IsPermutation(index[..], n) && Ascending(index[..], keys, i)
    {
      var best := LeastFrom(index, keys, smallest, i);
      if best != i {
        Swapped(index[..], keys, i, best);
        ghost var was := index[..];
        index[i], index[best] := index[best], index[i];
        assert index[..] == was[i := was[best]][best := was[i]];
      } else {
        Swapped(index[..], keys, i, i);
        assert index[..][i := index[i]] == index[..];
      }
    }
  }

  method LeastFrom(index: array<nat>, keys: seq<nat>, smallest: nat, i: nat) returns (best: nat)
    requires IsPermutation(index[..], |keys|) && i < |keys| && forall k :: 0 <= k < |keys| ==> smallest <= keys[k]
    ensures IsLeastFrom(index[..], keys, i, best)
  {
    best := i;
    for j := i + 1 to |keys|
      invariant i <= best < |keys| && forall k :: i <= k < j ==> keys[index[best]] <= keys[index[k]]
    {
      if keys[index[j]] - smallest < keys[index[best]] - smallest {
        best := j;
      }
    }
  }

  ghost predicate IsLeastFrom(index: seq<nat>, keys: seq<nat>, i: nat, best: nat)
    requires IsPermutation(index, |keys|)
  {
    i <= best < |keys| && forall k :: i <= k < |keys| ==> keys[index[best]] <= keys[index[k]]
  }

  lemma Swapped(index: seq<nat>, keys: seq<nat>, i: nat, best: nat)
    requires IsPermutation(index, |keys|) && i < |keys| && Ascending(index, keys, i) && IsLeastFrom(index, keys, i, best)
    ensures var next := index[i := index[best]][best := index[i]];
            IsPermutation(next, |keys|) && Ascending(next, keys, i + 1)
  {
  }

  // ----- Logical slots

  /** The distinct identifiers below one. */
  function Below(ids: seq<nat>, id: nat): set<nat> {
    set x | x in ids && x < id
  }

  /** The logical slot of each segment: the number of distinct identifiers below its own. */
  method LogicalSlots(ids: seq<nat>) returns (slots: seq<nat>)
    ensures |slots| == |ids| && forall j :: 0 <= j < |ids| ==> slots[j] == |Below(ids, ids[j])|
  {
    slots := [];
    for j := 0 to |ids|
      invariant |slots| == j && forall k :: 0 <= k < j ==> slots[k] == |Below(ids, ids[k])|
    {
      var slot := SlotOf(ids, ids[j]);
      slots := slots + [slot];
    }
  }

  method SlotOf(ids: seq<nat>, id: nat) returns (slot: nat)
    ensures slot == |Below(ids, id)|
  {
    slot := 0;
    for k := 0 to |ids|
      invariant slot == |Below(ids[..k], id)|
    {
      var counted := false;
      for m := 0 to k
        invariant counted <==> ids[k] in ids[..m]
      {
        counted := counted || ids[m] == ids[k];
      }
      BelowNext(ids, k, id);
      if !counted && ids[k] < id {
        slot := slot + 1;
      }
    }
    assert ids[..|ids|] == ids;
  }

  lemma BelowNext(ids: seq<nat>, k: nat, id: nat)
    requires k < |ids|
    ensures |Below(ids[..k + 1], id)| == |Below(ids[..k], id)| + (if ids[k] !in ids[..k] && ids[k] < id then 1 else 0)
  {
    assert ids[..k + 1] == ids[..k] + [ids[k]];
    if ids[k] < id {
      assert Below(ids[..k + 1], id) == Below(ids[..k], id) + {ids[k]};
    } else {
      assert Below(ids[..k + 1], id) == Below(ids[..k], id);
    }
  }

  lemma {:induction false} SmallerSet(a: set<nat>, b: set<nat>)
    requires a <= b
    ensures |a| <= |b| && (|a| == |b| <==> a == b)
  {
    assert b == a + (b - a);
    assert |b| == |a| + |b - a|;
    assert b - a == {} ==> a == b;
  }

  /** Slots follow the identifiers: the same for the same one, less for a lesser one, in every broker. */
  lemma SlotsFollowIds(ids: seq<nat>, j: nat, k: nat)
    requires j < |ids| && k < |ids|
    ensures |Below(ids, ids[j])| < |Below(ids, ids[k])| <==> ids[j] < ids[k]
    ensures |Below(ids, ids[j])| == |Below(ids, ids[k])| <==> ids[j] == ids[k]
  {
    if ids[j] <= ids[k] {
      SmallerSet(Below(ids, ids[j]), Below(ids, ids[k]));
      assert ids[j] < ids[k] ==> ids[j] in Below(ids, ids[k]) && ids[j] !in Below(ids, ids[j]);
    } else {
      SmallerSet(Below(ids, ids[k]), Below(ids, ids[j]));
      assert ids[k] in Below(ids, ids[j]) && ids[k] !in Below(ids, ids[k]);
    }
  }

  /** A broker has at most one segment of each logical slot. */
  lemma SlotsIdentify(segments: seq<Segment>, ids: seq<nat>, j: nat, k: nat)
    requires NoDuplicates(segments) && |ids| == |segments| && forall i :: 0 <= i < |ids| ==> ids[i] == segments[i].id
    requires j < |ids| && k < |ids| && segments[j].broker == segments[k].broker
    requires |Below(ids, ids[j])| == |Below(ids, ids[k])|
    ensures j == k
  {
    SlotsFollowIds(ids, j, k);
  }

  function AsSet(ids: seq<nat>): set<nat> {
    set x | x in ids
  }

  /** There are as many logical segments as distinct identifiers. */
  method CountLogicalSegments(slots: seq<nat>, ghost ids: seq<nat>) returns (count: nat)
    requires |slots| == |ids| && forall j :: 0 <= j < |ids| ==> slots[j] == |Below(ids, ids[j])|
    ensures count == |AsSet(ids)|
  {
    count := 0;
    for n := 0 to |slots|
      invariant n == 0 ==> count == 0
      invariant n > 0 ==> count > 0 && exists k :: 0 <= k < n && slots[k] == count - 1
      invariant forall k :: 0 <= k < n ==> slots[k] < count
    {
      if slots[n] + 1 > count {
        count := slots[n] + 1;
      }
    }
    if slots != [] {
      ghost var k :| 0 <= k < |slots| && slots[k] == count - 1;
      GreatestSlot(ids, k);
    } else {
      assert AsSet(ids) == {};
    }
  }

  lemma GreatestSlot(ids: seq<nat>, k: nat)
    requires k < |ids| && forall j :: 0 <= j < |ids| ==> |Below(ids, ids[j])| <= |Below(ids, ids[k])|
    ensures |AsSet(ids)| == |Below(ids, ids[k])| + 1
  {
    forall x | x in ids
      ensures x <= ids[k]
    {
      var j :| 0 <= j < |ids| && ids[j] == x;
      SlotsFollowIds(ids, k, j);
    }
    assert AsSet(ids) == Below(ids, ids[k]) + {ids[k]};
  }
}
