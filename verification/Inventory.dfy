/** The metadata inventory: groups and fields are registered in any order, sorted once, and then found by
    binary search. */
module Inventory {
  import opened Common
  import opened KeySort

  datatype GroupKey = GroupKey(kind: string, name: string, segment: nat)
  datatype GroupEntry = GroupEntry(key: GroupKey, groupId: nat, pattern: nat)
  datatype FieldKey = FieldKey(groupId: nat, keys: seq<string>)
  datatype FieldEntry = FieldEntry(key: FieldKey, offset: nat)
  datatype Request = Request(kind: string, name: string, segment: nat, keys: seq<string>)

  // ----- Key orders

  predicate NameLess(a: string, b: string) {
    b != [] && (a == [] || a[0] < b[0] || (a[0] == b[0] && NameLess(a[1..], b[1..])))
  }

  predicate KeysLess(a: seq<string>, b: seq<string>) {
    b != [] && (a == [] || if a[0] != b[0] then NameLess(a[0], b[0]) else KeysLess(a[1..], b[1..]))
  }

  predicate GroupLess(a: GroupKey, b: GroupKey) {
    if a.kind != b.kind then NameLess(a.kind, b.kind)
    else if a.name != b.name then NameLess(a.name, b.name)
    else a.segment < b.segment
  }

  predicate FieldLess(a: FieldKey, b: FieldKey) {
    if a.groupId != b.groupId then a.groupId < b.groupId else KeysLess(a.keys, b.keys)
  }

  lemma {:induction false} NameTotal(a: string, b: string)
    ensures NameLess(a, b) || NameLess(b, a) || a == b
    ensures !(NameLess(a, b) && NameLess(b, a)) && !NameLess(a, a)
  {
    if a != [] && b != [] && a[0] == b[0] {
      NameTotal(a[1..], b[1..]);
      assert a[1..] == b[1..] ==> a == [a[0]] + a[1..] == b;
    }
    if a != [] {
      NameTotal(a[1..], a[1..]);
    }
  }

  lemma {:induction false} NameTransitive(a: string, b: string, c: string)
    ensures NameLess(a, b) && NameLess(b, c) ==> NameLess(a, c)
  {
    if a != [] && b != [] && c != [] {
      NameTransitive(a[1..], b[1..], c[1..]);
    }
  }

  lemma {:induction false} KeysTotal(a: seq<string>, b: seq<string>)
    ensures KeysLess(a, b) || KeysLess(b, a) || a == b
    ensures !KeysLess(a, a)
  {
    if a != [] && b != [] {
      NameTotal(a[0], b[0]);
      if a[0] == b[0] {
        KeysTotal(a[1..], b[1..]);
        assert a[1..] == b[1..] ==> a == [a[0]] + a[1..] == b;
      }
    }
    if a != [] {
      KeysTotal(a[1..], a[1..]);
    }
  }

  lemma {:induction false} KeysTransitive(a: seq<string>, b: seq<string>, c: seq<string>)
    ensures KeysLess(a, b) && KeysLess(b, c) ==> KeysLess(a, c)
  {
    if a != [] && b != [] && c != [] {
      NameTotal(a[0], b[0]);
      NameTotal(a[0], c[0]);
      NameTransitive(a[0], b[0], c[0]);
      KeysTransitive(a[1..], b[1..], c[1..]);
    }
  }

  lemma GroupOrder()
    ensures IsOrder(GroupLess)
  {
    hide NameLess;
    forall a, b
      ensures !GroupLess(a, a) && (GroupLess(a, b) || GroupLess(b, a) || a == b)
    {
      NameTotal(a.kind, b.kind);
      NameTotal(a.name, b.name);
    }
    forall a, b, c | GroupLess(a, b) && GroupLess(b, c)
      ensures GroupLess(a, c)
    {
      NameTotal(a.kind, b.kind);
      NameTotal(a.name, b.name);
      NameTransitive(a.kind, b.kind, c.kind);
      NameTransitive(a.name, b.name, c.name);
    }
  }

  lemma FieldOrder()
    ensures IsOrder(FieldLess)
  {
    hide KeysLess;
    forall a, b
      ensures !FieldLess(a, a) && (FieldLess(a, b) || FieldLess(b, a) || a == b)
    {
      KeysTotal(a.keys, b.keys);
    }
    forall a, b, c | FieldLess(a, b) && FieldLess(b, c)
      ensures FieldLess(a, c)
    {
      KeysTransitive(a.keys, b.keys, c.keys);
    }
  }

  // ----- The reference lookup

  function GroupKeyOf(e: GroupEntry): GroupKey {
    e.key
  }

  function FieldKeyOf(e: FieldEntry): FieldKey {
    e.key
  }

  /** A search through everything in the order it was added: the group of the request's segment, or else of
      segment 0, and that group's first field with the request's keys. */
  function LinearLookup(groups: seq<GroupEntry>, fields: seq<FieldEntry>, req: Request): Option<FieldEntry> {
    var exact := FindFirst(groups, GroupKey(req.kind, req.name, req.segment), GroupKeyOf);
    var group := if exact.Some? then exact else FindFirst(groups, GroupKey(req.kind, req.name, 0), GroupKeyOf);
    if group.None? then None
    else FindFirst(fields, FieldKey(group.value.groupId, req.keys), FieldKeyOf)
  }

  // ----- What the answer is, by the entries that were added

  predicate IsGroup(groups: seq<GroupEntry>, g: nat, kind: string, name: string, segment: nat) {
    g < |groups| && groups[g].key == GroupKey(kind, name, segment)
  }

  predicate IsField(fields: seq<FieldEntry>, f: nat, groupId: nat, keys: seq<string>) {
    f < |fields| && fields[f].key.groupId == groupId && fields[f].key.keys == keys
  }

  /** The field that was added first for a group number and keys, if any was. */
  ghost predicate IsFirstField(fields: seq<FieldEntry>, groupId: nat, keys: seq<string>, r: Option<FieldEntry>) {
    match r
    case Some(entry) => exists f: nat ::
      IsField(fields, f, groupId, keys) && fields[f] == entry && forall e: nat :: e < f ==> !IsField(fields, e, groupId, keys)
    case None => forall f: nat :: !IsField(fields, f, groupId, keys)
  }

  /** The group of the request's segment decides, if it was registered; otherwise that of segment 0; and if there is
      neither, nothing is found. */
  ghost predicate IsAnswer(groups: seq<GroupEntry>, fields: seq<FieldEntry>, req: Request, r: Option<FieldEntry>) {
    && (forall g: nat :: IsGroup(groups, g, req.kind, req.name, req.segment) ==>
          IsFirstField(fields, groups[g].groupId, req.keys, r))
    && ((forall g: nat :: !IsGroup(groups, g, req.kind, req.name, req.segment)) ==>
          && (forall g: nat :: IsGroup(groups, g, req.kind, req.name, 0) ==>
                IsFirstField(fields, groups[g].groupId, req.keys, r))
          && ((forall g: nat :: !IsGroup(groups, g, req.kind, req.name, 0)) ==> r == None))
  }

  /** What the linear search finds is the entry at the least index, or there is none. */
  lemma {:induction false} FirstMeans<T, K>(s: seq<T>, k: K, key: T -> K)
    ensures match FindFirst(s, k, key)
            case Some(x) => exists i :: 0 <= i < |s| && s[i] == x && key(s[i]) == k && forall j :: 0 <= j < i ==> key(s[j]) != k
            case None => forall i :: 0 <= i < |s| ==> key(s[i]) != k
  {
    if s != [] && key(s[0]) != k {
      FirstMeans(s[1..], k, key);
      match FindFirst(s, k, key)
      case Some(x) =>
        var i :| 0 <= i < |s[1..]| && s[1..][i] == x && key(s[1..][i]) == k && forall j :: 0 <= j < i ==> key(s[1..][j]) != k;
        forall j | 0 <= j < i + 1
          ensures key(s[j]) != k
        {
          assert j > 0 ==> s[j] == s[1..][j - 1];
        }
        assert s[i + 1] == x;
      case None =>
        forall i | 0 <= i < |s|
          ensures key(s[i]) != k
        {
          assert i > 0 ==> s[i] == s[1..][i - 1];
        }
    }
  }

  lemma FieldFound(fields: seq<FieldEntry>, groupId: nat, keys: seq<string>)
    ensures IsFirstField(fields, groupId, keys, FindFirst(fields, FieldKey(groupId, keys), FieldKeyOf))
  {
    FirstMeans(fields, FieldKey(groupId, keys), FieldKeyOf);
    match FindFirst(fields, FieldKey(groupId, keys), FieldKeyOf)
    case Some(x) =>
      var f :| 0 <= f < |fields| && fields[f] == x && FieldKeyOf(fields[f]) == FieldKey(groupId, keys)
        && forall j :: 0 <= j < f ==> FieldKeyOf(fields[j]) != FieldKey(groupId, keys);
      forall e: nat | e < f
        ensures !IsField(fields, e, groupId, keys)
      {
        assert FieldKeyOf(fields[e]) != FieldKey(groupId, keys);
      }
      assert IsField(fields, f, groupId, keys);
    case None =>
      forall f: nat
        ensures !IsField(fields, f, groupId, keys)
      {
        assert f < |fields| ==> FieldKeyOf(fields[f]) != FieldKey(groupId, keys);
      }
  }

  /** Which group is found: the only one with the key, or none. */
  lemma GroupFound(groups: seq<GroupEntry>, kind: string, name: string, segment: nat)
    requires NumberedOnce(groups)
    ensures match FindFirst(groups, GroupKey(kind, name, segment), GroupKeyOf)
            case Some(x) =>
              && (exists g: nat :: IsGroup(groups, g, kind, name, segment))
              && (forall g: nat :: IsGroup(groups, g, kind, name, segment) ==> groups[g] == x)
            case None => forall g: nat :: !IsGroup(groups, g, kind, name, segment)
  {
    var key := GroupKey(kind, name, segment);
    FirstMeans(groups, key, GroupKeyOf);
    match FindFirst(groups, key, GroupKeyOf)
    case Some(x) =>
      var i :| 0 <= i < |groups| && groups[i] == x && GroupKeyOf(groups[i]) == key;
      assert IsGroup(groups, i, kind, name, segment);
    case None =>
      forall g: nat
        ensures !IsGroup(groups, g, kind, name, segment)
      {
        assert g < |groups| ==> GroupKeyOf(groups[g]) != key;
      }
  }

  lemma LinearIsAnswer(groups: seq<GroupEntry>, fields: seq<FieldEntry>, req: Request)
    requires NumberedOnce(groups)
    ensures IsAnswer(groups, fields, req, LinearLookup(groups, fields, req))
  {
    hide IsFirstField, NumberedOnce;
    GroupFound(groups, req.kind, req.name, req.segment);
    GroupFound(groups, req.kind, req.name, 0);
    var exact := FindFirst(groups, GroupKey(req.kind, req.name, req.segment), GroupKeyOf);
    var group := if exact.Some? then exact else FindFirst(groups, GroupKey(req.kind, req.name, 0), GroupKeyOf);
    if group.Some? {
      FieldFound(fields, group.value.groupId, req.keys);
    }
  }

  /** The same entries, and those of any one key in the same order. */
  ghost predicate SameByKey<T, K(!new)>(s: seq<T>, t: seq<T>, key: T -> K) {
    multiset(s) == multiset(t) && forall k :: WithKey(s, k, key) == WithKey(t, k, key)
  }

  lemma {:induction false} FirstWithKey<T, K>(s: seq<T>, k: K, key: T -> K)
    ensures FindFirst(s, k, key) == if WithKey(s, k, key) == [] then None else Some(WithKey(s, k, key)[0])
  {
    if s != [] {
      WithKeyFront(s, k, key);
      FirstWithKey(s[1..], k, key);
    }
  }

  lemma {:induction false} WithKeyFront<T, K>(s: seq<T>, k: K, key: T -> K)
    requires s != []
    ensures WithKey(s, k, key) == (if key(s[0]) == k then [s[0]] else []) + WithKey(s[1..], k, key)
  {
    var n := |s| - 1;
    if n > 0 {
      WithKeyFront(s[..n], k, key);
      assert s[1..][..n - 1] == s[..n][1..];
    }
  }

  lemma SameFirst<T, K(!new)>(s: seq<T>, t: seq<T>, k: K, key: T -> K)
    requires SameByKey(s, t, key)
    ensures FindFirst(s, k, key) == FindFirst(t, k, key)
  {
    FirstWithKey(s, k, key);
    FirstWithKey(t, k, key);
  }

  lemma SameAppended<T, K(!new)>(s: seq<T>, t: seq<T>, x: T, key: T -> K)
    requires SameByKey(s, t, key)
    ensures SameByKey(s + [x], t + [x], key)
  {
    forall k
      ensures WithKey(s + [x], k, key) == WithKey(t + [x], k, key)
    {
      assert (s + [x])[..|s|] == s && (t + [x])[..|t|] == t;
    }
  }

  /** Where the lower bound of a key has that key, it is the first that does; and otherwise none has. */
  lemma {:induction false} LowerBoundFinds<T, K(!new)>(s: seq<T>, k: K, key: T -> K, less: (K, K) -> bool, low: nat)
    requires IsOrder(less) && Ascending(s, key, less) && low <= |s|
    requires forall i :: 0 <= i < |s| ==> (less(key(s[i]), k) <==> i < low)
    ensures FindFirst(s, k, key) == if low < |s| && !less(k, key(s[low])) then Some(s[low]) else None
  {
    if s != [] && low > 0 {
      LowerBoundFinds(s[1..], k, key, less, low - 1);
    } else if s != [] && key(s[0]) != k {
      forall i | 0 <= i < |s|
        ensures key(s[i]) != k
      {
        assert i > 0 ==> !less(key(s[i]), key(s[0]));
      }
    }
  }

  lemma SameTransitive<T, K(!new)>(r: seq<T>, s: seq<T>, t: seq<T>, key: T -> K)
    requires SameByKey(r, s, key) && SameByKey(s, t, key)
    ensures SameByKey(r, t, key)
  {
  }

  /** The entries of a vector, sorted in place. */
  method SortedEntries<T, K>(s: seq<T>, key: T -> K, less: (K, K) -> bool) returns (r: seq<T>)
    ensures r == Sorted(s, key, less)
  {
    var a := new T[|s|](i requires 0 <= i < |s| => s[i]);
    assert a[..] == s;
    InsertionSort(a, key, less);
    return a[..];
  }

  class MetadataInventory {
    var groups: seq<GroupEntry>
    var fields: seq<FieldEntry>
    ghost var addedGroups: seq<GroupEntry>   // in the order of registration
    ghost var addedFields: seq<FieldEntry>

    ghost predicate Valid()
      reads this
    {
      && SameByKey(groups, addedGroups, GroupKeyOf) && SameByKey(fields, addedFields, FieldKeyOf)
      && NumberedOnce(addedGroups)
    }

    ghost predicate Finalized()
      reads this
    {
      Ascending(groups, GroupKeyOf, GroupLess) && Ascending(fields, FieldKeyOf, FieldLess)
    }

    constructor ()
      ensures Valid() && addedGroups == [] && addedFields == []
    {
      groups, fields, addedGroups, addedFields := [], [], [], [];
    }

    /** A group segment gets one number, however often it is registered. */
    method RegisterGroup(kind: string, name: string, segment: nat, pattern: nat) returns (id: nat)
      requires Valid()
      modifies this
      ensures Valid() && fields == old(fields) && addedFields == old(addedFields)
      ensures var known := FindFirst(old(addedGroups), GroupKey(kind, name, segment), GroupKeyOf);
              && id == (if known.Some? then known.value.groupId else |old(addedGroups)|)
              && addedGroups == old(addedGroups) + (if known.Some? then []
                  else [GroupEntry(GroupKey(kind, name, segment), id, pattern)])
      ensures IsGroup(addedGroups, id, kind, name, segment) && old(addedGroups) <= addedGroups
    {
      GroupFound(addedGroups, kind, name, segment);
      hide SameByKey;
      var key := GroupKey(kind, name, segment);
      SameFirst(groups, addedGroups, key, GroupKeyOf);
      SameLength(groups, addedGroups, GroupKeyOf);
      for i := 0 to |groups|
        invariant forall j :: 0 <= j < i ==> groups[j].key != key
      {
        if groups[i].key.segment == segment && groups[i].key.name == name && groups[i].key.kind == kind {
          FindsAt(groups, i, key, GroupKeyOf);
          return groups[i].groupId;
        }
      }
      id := |groups|;
      SameAppended(groups, addedGroups, GroupEntry(key, id, pattern), GroupKeyOf);
      NumbersNext(addedGroups, GroupEntry(key, id, pattern));
      groups := groups + [GroupEntry(key, id, pattern)];
      addedGroups := addedGroups + [GroupEntry(key, id, pattern)];
    }

    method AddField(groupId: nat, keys: seq<string>, offset: nat)
      requires Valid()
      modifies this
      ensures Valid() && groups == old(groups) && addedGroups == old(addedGroups)
      ensures addedFields == old(addedFields) + [FieldEntry(FieldKey(groupId, keys), offset)]
    {
      hide SameByKey;
      var entry := FieldEntry(FieldKey(groupId, keys), offset);
      SameAppended(fields, addedFields, entry, FieldKeyOf);
      fields := fields + [entry];
      addedFields := addedFields + [entry];
    }

    method Finalize()
      requires Valid()
      modifies this
      ensures Valid() && Finalized() && addedGroups == old(addedGroups) && addedFields == old(addedFields)
    {
      GroupOrder();
      FieldOrder();
      SortedIsStable(groups, GroupKeyOf, GroupLess);
      SortedIsStable(fields, FieldKeyOf, FieldLess);
      SameTransitive(Sorted(groups, GroupKeyOf, GroupLess), groups, addedGroups, GroupKeyOf);
      SameTransitive(Sorted(fields, FieldKeyOf, FieldLess), fields, addedFields, FieldKeyOf);
      hide SameByKey, Ascending, IsOrder;
      groups := SortedEntries(groups, GroupKeyOf, GroupLess);
      fields := SortedEntries(fields, FieldKeyOf, FieldLess);
    }

    /** What binary search finds is what a search in the order of registration finds. */
    method Lookup(req: Request) returns (r: Option<FieldEntry>)
      requires Valid() && Finalized()
      ensures r == LinearLookup(addedGroups, addedFields, req)
      ensures IsAnswer(addedGroups, addedFields, req, r)
    {
      LinearIsAnswer(addedGroups, addedFields, req);
      hide SameByKey, Ascending, IsOrder, IsAnswer;
      GroupOrder();
      FieldOrder();
      var key := GroupKey(req.kind, req.name, req.segment);
      var g := FindGroup(key);
      if g.None? {
        g := FindGroup(GroupKey(req.kind, req.name, 0));
        if g.None? {
          return None;
        }
      }
      var fieldKey := FieldKey(g.value.groupId, req.keys);
      var low := LowerBound(fields, fieldKey, FieldKeyOf, FieldLess);
      LowerBoundFinds(fields, fieldKey, FieldKeyOf, FieldLess, low);
      SameFirst(fields, addedFields, fieldKey, FieldKeyOf);
      if low < |fields| && !FieldLess(fieldKey, fields[low].key) {
        return Some(fields[low]);
      }
      return None;
    }

    method FindGroup(key: GroupKey) returns (r: Option<GroupEntry>)
      requires Valid() && Finalized()
      ensures r == FindFirst(addedGroups, key, GroupKeyOf)
    {
      hide SameByKey, Ascending, IsOrder;
      GroupOrder();
      var low := LowerBound(groups, key, GroupKeyOf, GroupLess);
      LowerBoundFinds(groups, key, GroupKeyOf, GroupLess, low);
      SameFirst(groups, addedGroups, key, GroupKeyOf);
      if low < |groups| && !GroupLess(key, groups[low].key) {
        return Some(groups[low]);
      }
      return None;
    }

    /** The first field of a group, in sorted order, that meets a condition; its fields lie together, from the
        lower bound of the least key that the group can have. */
    method LookupInGroupBy(groupId: nat, pred: FieldEntry -> bool) returns (r: Option<nat>)
      requires Valid() && Finalized()
      ensures r.Some? ==> r.value < |fields| && fields[r.value].key.groupId == groupId && pred(fields[r.value])
      ensures forall i :: 0 <= i < (if r.Some? then r.value else |fields|) ==>
          fields[i].key.groupId != groupId || !pred(fields[i])
    {
      FieldOrder();
      var i := LowerBound(fields, FieldKey(groupId, []), FieldKeyOf, FieldLess);
      while i < |fields| && fields[i].key.groupId == groupId
        invariant i <= |fields|
        invariant forall j :: 0 <= j < i ==> fields[j].key.groupId != groupId || !pred(fields[j])
        invariant forall j :: i <= j < |fields| ==> fields[j].key.groupId >= groupId
      {
        if pred(fields[i]) {
          return Some(i);
        }
        i := i + 1;
      }
      return None;
    }
  }

  /** The i-th group registered has number i, and no two have the same key. */
  ghost predicate NumberedOnce(groups: seq<GroupEntry>) {
    && (forall i :: 0 <= i < |groups| ==> groups[i].groupId == i)
    && (forall i, j :: 0 <= i < j < |groups| ==> groups[i].key != groups[j].key)
  }

  lemma NumbersNext(groups: seq<GroupEntry>, entry: GroupEntry)
    requires NumberedOnce(groups) && entry.groupId == |groups| && FindFirst(groups, entry.key, GroupKeyOf).None?
    ensures NumberedOnce(groups + [entry])
  {
    forall i | 0 <= i < |groups|
      ensures groups[i].key != entry.key
    {
      assert groups[i] in groups;
    }
  }

  lemma SameLength<T, K(!new)>(s: seq<T>, t: seq<T>, key: T -> K)
    requires SameByKey(s, t, key)
    ensures |s| == |t|
  {
    assert |multiset(s)| == |multiset(t)|;
  }

  lemma {:induction false} FindsAt<T, K>(s: seq<T>, i: nat, k: K, key: T -> K)
    requires i < |s| && key(s[i]) == k && forall j :: 0 <= j < i ==> key(s[j]) != k
    ensures FindFirst(s, k, key) == Some(s[i])
  {
    if i > 0 {
      FindsAt(s[1..], i - 1, k, key);
    }
  }
}
