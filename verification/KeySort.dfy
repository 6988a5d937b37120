/** Insertion sort and lower bound over entries with keys, as the metadata inventory uses them. */
module KeySort {
  import opened Common

  ghost predicate IsOrder<K(!new)>(less: (K, K) -> bool) {
    && (forall a :: !less(a, a))
    && (forall a, b :: less(a, b) || less(b, a) || a == b)
    && (forall a, b, c :: less(a, b) && less(b, c) ==> less(a, c))
  }

  /** x placed after everything that is not greater. */
  function Insert<T, K>(s: seq<T>, x: T, key: T -> K, less: (K, K) -> bool): (r: seq<T>)
    ensures |r| == |s| + 1
  {
    if s == [] || !less(key(x), key(s[|s| - 1])) then s + [x]
    else Insert(s[..|s| - 1], x, key, less) + [s[|s| - 1]]
  }

  function Sorted<T, K>(s: seq<T>, key: T -> K, less: (K, K) -> bool): (r: seq<T>)
    ensures |r| == |s|
  {
    if s == [] then [] else Insert(Sorted(s[..|s| - 1], key, less), s[|s| - 1], key, less)
  }

  method InsertionSort<T, K>(a: array<T>, key: T -> K, less: (K, K) -> bool)
    modifies a
    ensures a[..] == Sorted(old(a[..]), key, less)
  {
    hide Sorted, Insert;
    ghost var was := a[..];
    if a.Length == 0 {
      SortedShort(was, key, less);
      return;
    }
    SortedShort(was[..1], key, less);
    for i := 1 to a.Length
      invariant a[..i] == Sorted(was[..i], key, less) && a[i..] == was[i..]
    {
      assert a[i] == was[i];
      Place(a, i, key, less);
      assert a[i + 1..] == was[i + 1..];
      SortedNext(was, i, key, less);
    }
    assert a[..] == a[..a.Length] && was[..a.Length] == was;
  }

  /** Shift the greater ones of the first i entries up, and put entry i below them. */
  method Place<T, K>(a: array<T>, i: nat, key: T -> K, less: (K, K) -> bool)
    requires i < a.Length
    modifies a
    ensures a[..i + 1] == Insert(old(a[..i]), old(a[i]), key, less) && a[i + 1..] == old(a[i + 1..])
  {
    hide Insert;
    var temp := a[i];
    ghost var front, rest := a[..i], a[i + 1..];
    var j := i;
    while j > 0 && less(key(temp), key(a[j - 1]))
      invariant j <= i && a[..j] == front[..j] && a[j + 1..i + 1] == front[j..] && a[i + 1..] == rest
      invariant Insert(front, temp, key, less) == Insert(front[..j], temp, key, less) + front[j..]
    {
      Shifted(front, j, temp, key, less);
      ShiftUp(a, i, j, front);
      j := j - 1;
    }
    a[j] := temp;
    InsertHere(front[..j], temp, key, less);
    assert a[..j] == front[..j];
    assert a[..i + 1] == a[..j] + [temp] + a[j + 1..i + 1];
  }

  /** Entry j - 1 moves up by one place. */
  method ShiftUp<T>(a: array<T>, i: nat, j: nat, ghost front: seq<T>)
    requires 0 < j <= i < a.Length && |front| == i && a[..j] == front[..j] && a[j + 1..i + 1] == front[j..]
    modifies a
    ensures a[..j - 1] == front[..j - 1] && a[j..i + 1] == front[j - 1..] && a[i + 1..] == old(a[i + 1..])
  {
    assert a[j - 1] == front[..j][j - 1];
    a[j] := a[j - 1];
    assert a[j..i + 1] == [a[j]] + a[j + 1..i + 1];
    assert front[j - 1..] == [front[j - 1]] + front[j..];
  }

  lemma Shifted<T, K>(front: seq<T>, j: nat, x: T, key: T -> K, less: (K, K) -> bool)
    requires 0 < j <= |front| && less(key(x), key(front[j - 1]))
    ensures Insert(front[..j], x, key, less) + front[j..] == Insert(front[..j - 1], x, key, less) + front[j - 1..]
  {
    InsertShifts(front[..j], x, key, less);
    assert front[..j][..j - 1] == front[..j - 1];
    assert front[j - 1..] == [front[j - 1]] + front[j..];
  }

  lemma SortedShort<T, K>(s: seq<T>, key: T -> K, less: (K, K) -> bool)
    requires |s| <= 1
    ensures Sorted(s, key, less) == s
  {
  }

  lemma SortedNext<T, K>(s: seq<T>, i: nat, key: T -> K, less: (K, K) -> bool)
    requires i < |s|
    ensures Sorted(s[..i + 1], key, less) == Insert(Sorted(s[..i], key, less), s[i], key, less)
  {
    assert s[..i + 1][..i] == s[..i];
  }

  lemma InsertShifts<T, K>(s: seq<T>, x: T, key: T -> K, less: (K, K) -> bool)
    requires s != [] && less(key(x), key(s[|s| - 1]))
    ensures Insert(s, x, key, less) == Insert(s[..|s| - 1], x, key, less) + [s[|s| - 1]]
  {
  }

  lemma InsertHere<T, K>(s: seq<T>, x: T, key: T -> K, less: (K, K) -> bool)
    requires s == [] || !less(key(x), key(s[|s| - 1]))
    ensures Insert(s, x, key, less) == s + [x]
  {
  }

  // ----- What sorting is for

  ghost predicate Ascending<T, K>(s: seq<T>, key: T -> K, less: (K, K) -> bool) {
    forall i, j :: 0 <= i < j < |s| ==> !less(key(s[j]), key(s[i]))
  }

  /** The entries with one key, in order. */
  function WithKey<T, K(==)>(s: seq<T>, k: K, key: T -> K): seq<T> {
    if s == [] then [] else WithKey(s[..|s| - 1], k, key) + (if key(s[|s| - 1]) == k then [s[|s| - 1]] else [])
  }

  lemma {:induction false} InsertKeepsEntries<T, K>(s: seq<T>, x: T, key: T -> K, less: (K, K) -> bool)
    ensures multiset(Insert(s, x, key, less)) == multiset(s) + multiset{x}
  {
    if s != [] && less(key(x), key(s[|s| - 1])) {
      var n := |s| - 1;
      InsertKeepsEntries(s[..n], x, key, less);
      InsertShifts(s, x, key, less);
      hide Insert;
      assert s == s[..n] + [s[n]];
    } else {
      InsertHere(s, x, key, less);
    }
  }

  lemma AppendAscends<T, K(!new)>(s: seq<T>, x: T, key: T -> K, less: (K, K) -> bool)
    requires Ascending(s, key, less) && forall i :: 0 <= i < |s| ==> !less(key(x), key(s[i]))
    ensures Ascending(s + [x], key, less)
  {
  }

  lemma {:induction false} InsertKeeps<T, K(!new)>(s: seq<T>, x: T, key: T -> K, less: (K, K) -> bool)
    requires IsOrder(less) && Ascending(s, key, less)
    ensures Ascending(Insert(s, x, key, less), key, less) && multiset(Insert(s, x, key, less)) == multiset(s) + multiset{x}
  {
    InsertKeepsEntries(s, x, key, less);
    if s != [] && less(key(x), key(s[|s| - 1])) {
      var n := |s| - 1;
      var front := Insert(s[..n], x, key, less);
      InsertKeeps(s[..n], x, key, less);
      forall i | 0 <= i < |front|
        ensures !less(key(s[n]), key(front[i]))
      {
        assert front[i] in multiset(front);
        assert front[i] == x || front[i] in s[..n];
      }
      hide Ascending;
      AppendAscends(front, s[n], key, less);
      InsertShifts(s, x, key, less);
    } else {
      InsertLast(s, x, key, less);
    }
  }

  /** What is not less than the last is not less than any. */
  lemma InsertLast<T, K(!new)>(s: seq<T>, x: T, key: T -> K, less: (K, K) -> bool)
    requires IsOrder(less) && Ascending(s, key, less) && (s == [] || !less(key(x), key(s[|s| - 1])))
    ensures Ascending(Insert(s, x, key, less), key, less)
  {
    InsertHere(s, x, key, less);
    forall i | 0 <= i < |s|
      ensures !less(key(x), key(s[i]))
    {
      assert i < |s| - 1 ==> !less(key(s[|s| - 1]), key(s[i]));
    }
    AppendAscends(s, x, key, less);
  }

  /** An entry is placed after those with its key, and the others keep their order. */
  lemma {:induction false} InsertIsStable<T, K(!new)>(s: seq<T>, x: T, k: K, key: T -> K, less: (K, K) -> bool)
    requires IsOrder(less)
    ensures WithKey(Insert(s, x, key, less), k, key) == WithKey(s + [x], k, key)
  {
    assert (s + [x])[..|s|] == s;
    if s != [] && less(key(x), key(s[|s| - 1])) {
      var n := |s| - 1;
      var front := Insert(s[..n], x, key, less);
      InsertIsStable(s[..n], x, k, key, less);
      assert (front + [s[n]])[..|s|] == front && (s[..n] + [x])[..n] == s[..n];
      assert Insert(s, x, key, less) == front + [s[n]];
      assert !(key(x) == k && key(s[n]) == k);
    }
  }

  /** Sorting orders the entries, keeps all of them, and leaves those of one key in the order they had. */
  lemma {:induction false} SortedIsStable<T, K(!new)>(s: seq<T>, key: T -> K, less: (K, K) -> bool)
    requires IsOrder(less)
    ensures var r := Sorted(s, key, less);
            && Ascending(r, key, less) && multiset(r) == multiset(s)
            && forall k :: WithKey(r, k, key) == WithKey(s, k, key)
  {
    if s != [] {
      var n := |s| - 1;
      var front := Sorted(s[..n], key, less);
      SortedIsStable(s[..n], key, less);
      InsertKeeps(front, s[n], key, less);
      assert s == s[..n] + [s[n]];
      forall k
        ensures WithKey(Sorted(s, key, less), k, key) == WithKey(s, k, key)
      {
        InsertIsStable(front, s[n], k, key, less);
        assert (front + [s[n]])[..n] == front;
      }
    }
  }

  // ----- Lower bound

  /** The first entry that is not less than a key. */
  method LowerBound<T, K(!new)>(s: seq<T>, k: K, key: T -> K, less: (K, K) -> bool) returns (low: nat)
    requires IsOrder(less) && Ascending(s, key, less)
    ensures low <= |s|
    ensures forall i :: 0 <= i < |s| ==> (less(key(s[i]), k) <==> i < low)
  {
    low := 0;
    var high := |s|;
    while low < high
      invariant low <= high <= |s|
      invariant forall i :: 0 <= i < low ==> less(key(s[i]), k)
      invariant forall i :: high <= i < |s| ==> !less(key(s[i]), k)
    {
      var mid := low + (high - low) / 2;
      if less(key(s[mid]), k) {
        low := mid + 1;
      } else {
        high := mid;
      }
    }
  }

  /** The first entry with a key, wherever it is: the reference for lookups. */
  function FindFirst<T, K(==)>(s: seq<T>, k: K, key: T -> K): (r: Option<T>)
    ensures r.Some? ==> r.value in s && key(r.value) == k
    ensures r.None? ==> forall x :: x in s ==> key(x) != k
  {
    if s == [] then None else if key(s[0]) == k then Some(s[0]) else FindFirst(s[1..], k, key)
  }
}
