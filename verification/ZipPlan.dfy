/** Zipped iteration: the groups' fetches are planned once, without duplicates; a fetch whose buffer an
    earlier one fills does not read but checks that both need the same range. */
module ZipPlan {
  import opened Common

  datatype Mapping = PerKind | AlignTo

  /** A group of a zip: its format, and for each of its stream brokers which one and with which pattern. */
  datatype Group = Group(format: nat, brokers: seq<nat>, patterns: seq<nat>, mapping: Mapping, alignPattern: nat)

  datatype Fetch = Fetch(group: nat, position: nat, bufferOf: Option<nat>)

  /** A buffer: one for each broker of a format and each access pattern. */
  datatype Buffer = Buffer(format: nat, broker: nat, pattern: nat)

  predicate Has(groups: seq<Group>, g: nat, b: nat) {
    g < |groups| && b < |groups[g].brokers| == |groups[g].patterns|
  }

  function BufferFor(groups: seq<Group>, g: nat, b: nat): Buffer
    requires Has(groups, g, b)
  {
    Buffer(groups[g].format, groups[g].brokers[b], groups[g].patterns[b])
  }

  predicate SharesBuffer(groups: seq<Group>, g: nat, b: nat, h: nat, c: nat)
    requires Has(groups, g, b) && Has(groups, h, c)
  {
    && groups[g].format == groups[h].format
    && groups[g].brokers[b] == groups[h].brokers[c] && groups[g].patterns[b] == groups[h].patterns[c]
  }

  predicate SharesFetch(groups: seq<Group>, g: nat, b: nat, h: nat, c: nat)
    requires Has(groups, g, b) && Has(groups, h, c)
  {
    && SharesBuffer(groups, g, b, h, c)
    && groups[g].mapping == groups[h].mapping && groups[g].alignPattern == groups[h].alignPattern
  }

  ghost predicate InGroups(groups: seq<Group>, fetches: seq<Fetch>) {
    forall f :: 0 <= f < |fetches| ==> Has(groups, fetches[f].group, fetches[f].position)
  }

  function KeyOf(groups: seq<Group>, fetch: Fetch): Buffer
    requires Has(groups, fetch.group, fetch.position)
  {
    BufferFor(groups, fetch.group, fetch.position)
  }

  // ----- What a plan promises

  /** A fetch names the first earlier fetch of its buffer, and reads if there is none. */
  ghost predicate FirstWrites(groups: seq<Group>, fetches: seq<Fetch>)
    requires InGroups(groups, fetches)
  {
    forall f :: 0 <= f < |fetches| ==> IsFirstOf(groups, fetches[..f], KeyOf(groups, fetches[f]), fetches[f].bufferOf)
  }

  ghost predicate IsFirstOf(groups: seq<Group>, fetches: seq<Fetch>, key: Buffer, r: Option<nat>)
    requires InGroups(groups, fetches)
  {
    && (r.Some? ==> r.value < |fetches| && KeyOf(groups, fetches[r.value]) == key)
    && (forall e :: 0 <= e < (if r.Some? then r.value else |fetches|) ==> KeyOf(groups, fetches[e]) != key)
  }

  ghost predicate NoDuplicates(groups: seq<Group>, fetches: seq<Fetch>)
    requires InGroups(groups, fetches)
  {
    forall e, f :: 0 <= e < f < |fetches| ==>
      !SharesFetch(groups, fetches[f].group, fetches[f].position, fetches[e].group, fetches[e].position)
  }

  /** A fetch planned for this position, or for one before it, is the one that position b of group g needs. */
  ghost predicate Serves(groups: seq<Group>, fetches: seq<Fetch>, g: nat, b: nat)
    requires InGroups(groups, fetches) && Has(groups, g, b)
  {
    exists f :: 0 <= f < |fetches| && SharesFetch(groups, g, b, fetches[f].group, fetches[f].position)
      && Before(fetches[f], g, b + 1)
  }

  predicate Before(fetch: Fetch, g: nat, b: nat) {
    fetch.group < g || (fetch.group == g && fetch.position < b)
  }

  ghost predicate AllBefore(fetches: seq<Fetch>, g: nat, b: nat) {
    forall f :: 0 <= f < |fetches| ==> Before(fetches[f], g, b)
  }

  ghost predicate WellFormed(groups: seq<Group>) {
    forall g :: 0 <= g < |groups| ==> |groups[g].brokers| == |groups[g].patterns|
  }

  /** The plan for all positions before position b of group g. */
  ghost predicate PlannedTo(groups: seq<Group>, fetches: seq<Fetch>, g: nat, b: nat) {
    && WellFormed(groups) && InGroups(groups, fetches)
    && FirstWrites(groups, fetches) && NoDuplicates(groups, fetches) && AllBefore(fetches, g, b)
    && forall h, c :: 0 <= h <= g && 0 <= c && Has(groups, h, c) && (h < g || c < b) ==> Serves(groups, fetches, h, c)
  }

  ghost predicate Planned(groups: seq<Group>, fetches: seq<Fetch>) {
    PlannedTo(groups, fetches, |groups|, 0)
  }

  /** What one fetch of a batch comes to: the range of ordinals it needs, if its steps can be mapped, and
      how its read ends. */
  datatype Demand = Demand(range: Option<Range>, read: IOStatus)

  class ZipFetchPlan {
    const groups: seq<Group>
    var fetches: seq<Fetch>
    var contents: map<Buffer, Range>   // what each buffer was last filled with

    constructor (groups: seq<Group>)
      requires WellFormed(groups)
      ensures this.groups == groups && Planned(groups, fetches) && contents == map[]
    {
      this.groups, this.fetches, this.contents := groups, [], map[];
      new;
      for g := 0 to |groups|
        invariant this.groups == groups && contents == map[] && PlannedTo(groups, fetches, g, 0)
      {
        PlanGroup(g);
      }
    }

    method PlanGroup(g: nat)
      requires g < |groups| && PlannedTo(groups, fetches, g, 0)
      modifies this`fetches
      ensures PlannedTo(groups, fetches, g + 1, 0)
    {
      hide FirstWrites, NoDuplicates, Serves, SharesFetch, SharesBuffer, IsFirstOf;
      for b := 0 to |groups[g].brokers|
        invariant PlannedTo(groups, fetches, g, b)
      {
        var shared, bufferOf := FindFetch(g, b);
        if !shared {
          PlannedNext(groups, fetches, g, b, bufferOf);
          fetches := fetches + [Fetch(g, b, bufferOf)];
        } else {
          AlreadyPlanned(groups, fetches, g, b);
        }
      }
      GroupPlanned(groups, fetches, g);
    }

    /** Whether an earlier fetch is the same, and which one is the first to fill the same buffer. */
    method FindFetch(g: nat, b: nat) returns (shared: bool, bufferOf: Option<nat>)
      requires Has(groups, g, b) && InGroups(groups, fetches) && AllBefore(fetches, g, b)
      ensures shared <==> Serves(groups, fetches, g, b)
      ensures IsFirstOf(groups, fetches, BufferFor(groups, g, b), bufferOf)
    {
      shared, bufferOf := false, None;
      for f := 0 to |fetches|
        invariant shared <==> exists e :: 0 <= e < f && SharesFetch(groups, g, b, fetches[e].group, fetches[e].position)
        invariant bufferOf.Some? ==> bufferOf.value < f && KeyOf(groups, fetches[bufferOf.value]) == BufferFor(groups, g, b)
        invariant forall e :: 0 <= e < (if bufferOf.Some? then bufferOf.value else f) ==>
            KeyOf(groups, fetches[e]) != BufferFor(groups, g, b)
      {
        shared := shared || SharesFetch(groups, g, b, fetches[f].group, fetches[f].position);
        if bufferOf == None && SharesBuffer(groups, g, b, fetches[f].group, fetches[f].position) {
          bufferOf := Some(f);
        }
      }
    }

    /** Both fetches of a buffer must need the same range: they would overwrite each other. */
    method CheckSharedBuffer(f: nat, demands: (nat, nat) -> Demand) returns (status: IOStatus)
      requires Planned(groups, fetches) && f < |fetches| && fetches[f].bufferOf.Some?
      ensures var other := fetches[f].bufferOf.value;
              var mine, theirs := Needs(fetches[f], demands), if other < |fetches| then Needs(fetches[other], demands)
                  else None;
              && (status == Success <==> mine.Some? && mine == theirs)
              && (status == BufferConflict <==> mine.Some? && theirs.Some? && mine != theirs)
              && (status == NoOffsetInData <==> mine.None? || theirs.None?)
    {
      hide NoDuplicates, Serves, AllBefore, BufferFor;
      assert IsFirstOf(groups, fetches[..f], KeyOf(groups, fetches[f]), fetches[f].bufferOf);
      var mine := Needs(fetches[f], demands);
      if mine.None? {
        return NoOffsetInData;
      }
      var theirs := Needs(fetches[fetches[f].bufferOf.value], demands);
      if theirs.None? {
        return NoOffsetInData;
      }
      if mine == theirs {
        return Success;
      }
      return BufferConflict;
    }

    /** Perform every planned fetch, up to the first that fails. An empty range needs no read. */
    method FetchAll(demands: (nat, nat) -> Demand) returns (status: IOStatus)
      requires Planned(groups, fetches)
      modifies this`contents
      ensures status == Success <==> forall f :: 0 <= f < |fetches| ==> Goes(fetches, f, demands)
      ensures status == Success ==> Filled(groups, fetches, contents, demands)
      ensures status != Success ==> exists f: nat :: EndsAt(fetches, f, demands) && status == StatusOf(fetches, f, demands)
      ensures Untouched(groups, fetches, old(contents), contents, demands)
    {
      hide PlannedTo, FilledTo, Goes, Needs, BufferFor, Writes, StatusOf;
      PlanFacts(groups, fetches);
      status := Success;
      FilledNone(groups, fetches, contents, demands);
      for f := 0 to |fetches|
        invariant status == Success && forall e :: 0 <= e < f ==> Goes(fetches, e, demands)
        invariant FilledTo(groups, fetches, contents, f, demands)
        invariant Untouched(groups, fetches, old(contents), contents, demands)
      {
        ghost var mid := contents;
        status := FetchOne(f, demands);
        UntouchedNext(groups, fetches, old(contents), mid, contents, f, demands);
        if status != Success {
          assert EndsAt(fetches, f, demands);
          return;
        }
      }
    }

    method FetchOne(f: nat, demands: (nat, nat) -> Demand) returns (status: IOStatus)
      requires Planned(groups, fetches) && InGroups(groups, fetches) && f < |fetches|
          && FilledTo(groups, fetches, contents, f, demands)
      modifies this`contents
      ensures status == Success <==> Goes(fetches, f, demands)
      ensures status == StatusOf(fetches, f, demands)
      ensures status == Success ==> FilledTo(groups, fetches, contents, f + 1, demands)
      ensures forall key ::
          key != KeyOf(groups, fetches[f]) || !Writes(fetches[f], demands) ==> Same(old(contents), contents, key)
    {
      hide PlannedTo, FilledTo, BufferFor, Holds;
      if fetches[f].bufferOf.Some? {
        BufferOfReads(groups, fetches, f);
        status := CheckSharedBuffer(f, demands);
        if status == Success {
          FilledByCheck(groups, fetches, contents, f, demands);
        }
        return;
      }
      var need := Needs(fetches[f], demands);
      if need.None? {
        return NoOffsetInData;
      }
      status := Success;
      if !IsEmpty(need.value) {
        status := demands(fetches[f].group, fetches[f].position).read;
        FilledByRead(groups, fetches, contents, f, demands, need.value);
        contents := contents[KeyOf(groups, fetches[f]) := need.value];
      } else {
        FilledByNothing(groups, fetches, contents, f, demands);
      }
    }
  }

  function Needs(fetch: Fetch, demands: (nat, nat) -> Demand): Option<Range> {
    demands(fetch.group, fetch.position).range
  }

  /** The fetch succeeds: by reading, or by agreeing with the fetch that reads its buffer. */
  predicate Goes(fetches: seq<Fetch>, f: nat, demands: (nat, nat) -> Demand)
    requires f < |fetches|
  {
    var need := Needs(fetches[f], demands);
    need.Some? &&
    match fetches[f].bufferOf
    case Some(other) => other < |fetches| && need == Needs(fetches[other], demands)
    case None => !IsEmpty(need.value) ==> demands(fetches[f].group, fetches[f].position).read == Success
  }

  predicate Holds(contents: map<Buffer, Range>, key: Buffer, need: Option<Range>) {
    need.Some? && (!IsEmpty(need.value) ==> key in contents && contents[key] == need.value)
  }

  ghost predicate FilledTo(groups: seq<Group>, fetches: seq<Fetch>, contents: map<Buffer, Range>, n: nat,
        demands: (nat, nat) -> Demand)
    requires InGroups(groups, fetches) && n <= |fetches|
  {
    forall f :: 0 <= f < n ==> Holds(contents, KeyOf(groups, fetches[f]), Needs(fetches[f], demands))
  }

  /** Every fetch's range is in its buffer. */
  ghost predicate Filled(groups: seq<Group>, fetches: seq<Fetch>, contents: map<Buffer, Range>,
        demands: (nat, nat) -> Demand)
    requires InGroups(groups, fetches)
  {
    FilledTo(groups, fetches, contents, |fetches|, demands)
  }

  lemma PlannedNext(groups: seq<Group>, fetches: seq<Fetch>, g: nat, b: nat, bufferOf: Option<nat>)
    requires Has(groups, g, b) && PlannedTo(groups, fetches, g, b) && !Serves(groups, fetches, g, b)
    requires IsFirstOf(groups, fetches, BufferFor(groups, g, b), bufferOf)
    ensures PlannedTo(groups, fetches + [Fetch(g, b, bufferOf)], g, b + 1)
  {
    var more := fetches + [Fetch(g, b, bufferOf)];
    forall f | 0 <= f < |more|
      ensures IsFirstOf(groups, more[..f], KeyOf(groups, more[f]), more[f].bufferOf)
    {
      if f < |fetches| {
        assert more[..f] == fetches[..f];
      } else {
        assert more[..f] == fetches;
      }
    }
    hide FirstWrites, NoDuplicates, SharesFetch;
    ServedNext(groups, fetches, g, b, bufferOf);
  }

  lemma ServedNext(groups: seq<Group>, fetches: seq<Fetch>, g: nat, b: nat, bufferOf: Option<nat>)
    requires Has(groups, g, b) && PlannedTo(groups, fetches, g, b)
    ensures var more := fetches + [Fetch(g, b, bufferOf)];
            && InGroups(groups, more)
            && forall h, c :: 0 <= h <= g && 0 <= c && Has(groups, h, c) && (h < g || c < b + 1) ==> Serves(groups, more, h, c)
  {
    hide FirstWrites, NoDuplicates;
    var more := fetches + [Fetch(g, b, bufferOf)];
    forall h, c | 0 <= h <= g && 0 <= c && Has(groups, h, c) && (h < g || c < b + 1)
      ensures Serves(groups, more, h, c)
    {
      if h == g && c == b {
        assert SharesFetch(groups, h, c, more[|fetches|].group, more[|fetches|].position);
      } else {
        assert Serves(groups, fetches, h, c);
        var f :| 0 <= f < |fetches| && SharesFetch(groups, h, c, fetches[f].group, fetches[f].position)
          && Before(fetches[f], h, c + 1);
        assert more[f] == fetches[f];
      }
    }
  }

  predicate Same(was: map<Buffer, Range>, now: map<Buffer, Range>, key: Buffer) {
    (key in now <==> key in was) && (key in now ==> now[key] == was[key])
  }

  /** The fetch reads, and there is something to read. */
  predicate Writes(fetch: Fetch, demands: (nat, nat) -> Demand) {
    fetch.bufferOf.None? && Needs(fetch, demands).Some? && !IsEmpty(Needs(fetch, demands).value)
  }

  predicate IsEmpty(range: Range) {
    range.first >= range.end
  }

  /** Buffers that no planned fetch reads something into are left alone. */
  ghost predicate Untouched(groups: seq<Group>, fetches: seq<Fetch>, was: map<Buffer, Range>, now: map<Buffer, Range>,
        demands: (nat, nat) -> Demand)
    requires InGroups(groups, fetches)
  {
    forall key :: NotWritten(groups, fetches, key, demands) ==> Same(was, now, key)
  }

  ghost predicate NotWritten(groups: seq<Group>, fetches: seq<Fetch>, key: Buffer, demands: (nat, nat) -> Demand)
    requires InGroups(groups, fetches)
  {
    forall f :: 0 <= f < |fetches| && Writes(fetches[f], demands) ==> KeyOf(groups, fetches[f]) != key
  }

  lemma UntouchedNext(groups: seq<Group>, fetches: seq<Fetch>, was: map<Buffer, Range>, mid: map<Buffer, Range>,
      now: map<Buffer, Range>, f: nat, demands: (nat, nat) -> Demand)
    requires InGroups(groups, fetches) && f < |fetches| && Untouched(groups, fetches, was, mid, demands)
    requires forall key :: key != KeyOf(groups, fetches[f]) || !Writes(fetches[f], demands) ==> Same(mid, now, key)
    ensures Untouched(groups, fetches, was, now, demands)
  {
    forall key | NotWritten(groups, fetches, key, demands)
      ensures Same(was, now, key)
    {
      assert Same(was, mid, key) && Same(mid, now, key);
    }
  }

  lemma PlanFacts(groups: seq<Group>, fetches: seq<Fetch>)
    requires Planned(groups, fetches)
    ensures InGroups(groups, fetches)
  {
  }

  lemma FilledNone(groups: seq<Group>, fetches: seq<Fetch>, contents: map<Buffer, Range>, demands: (nat, nat) -> Demand)
    requires InGroups(groups, fetches)
    ensures FilledTo(groups, fetches, contents, 0, demands)
  {
  }

  lemma FilledByRead(groups: seq<Group>, fetches: seq<Fetch>, contents: map<Buffer, Range>, f: nat,
        demands: (nat, nat) -> Demand, need: Range)
    requires Planned(groups, fetches) && f < |fetches| && fetches[f].bufferOf.None?
        && Needs(fetches[f], demands) == Some(need)
    requires FilledTo(groups, fetches, contents, f, demands)
    ensures FilledTo(groups, fetches, contents[KeyOf(groups, fetches[f]) := need], f + 1, demands)
  {
    hide NoDuplicates, Serves, Needs, BufferFor;
    assert IsFirstOf(groups, fetches[..f], KeyOf(groups, fetches[f]), None);
    forall e | 0 <= e < f
      ensures KeyOf(groups, fetches[e]) != KeyOf(groups, fetches[f])
    {
      assert fetches[..f][e] == fetches[e];
    }
  }

  lemma FilledByNothing(groups: seq<Group>, fetches: seq<Fetch>, contents: map<Buffer, Range>, f: nat,
        demands: (nat, nat) -> Demand)
    requires InGroups(groups, fetches) && f < |fetches| && Needs(fetches[f], demands).Some?
    requires IsEmpty(Needs(fetches[f], demands).value)
    requires FilledTo(groups, fetches, contents, f, demands)
    ensures FilledTo(groups, fetches, contents, f + 1, demands)
  {
  }

  lemma FilledByCheck(groups: seq<Group>, fetches: seq<Fetch>, contents: map<Buffer, Range>, f: nat,
        demands: (nat, nat) -> Demand)
    requires Planned(groups, fetches) && InGroups(groups, fetches) && f < |fetches|
    requires fetches[f].bufferOf.Some? && Goes(fetches, f, demands)
    requires FilledTo(groups, fetches, contents, f, demands)
    ensures FilledTo(groups, fetches, contents, f + 1, demands)
  {
    hide PlannedTo, Needs, BufferFor;
    BufferOfReads(groups, fetches, f);
    assert Holds(contents, KeyOf(groups, fetches[fetches[f].bufferOf.value]), Needs(fetches[fetches[f].bufferOf.value], demands));
  }

  lemma AlreadyPlanned(groups: seq<Group>, fetches: seq<Fetch>, g: nat, b: nat)
    requires Has(groups, g, b) && PlannedTo(groups, fetches, g, b) && Serves(groups, fetches, g, b)
    ensures PlannedTo(groups, fetches, g, b + 1)
  {
    hide FirstWrites, NoDuplicates, SharesFetch;
  }

  lemma GroupPlanned(groups: seq<Group>, fetches: seq<Fetch>, g: nat)
    requires g < |groups| && PlannedTo(groups, fetches, g, |groups[g].brokers|)
    ensures PlannedTo(groups, fetches, g + 1, 0)
  {
    hide FirstWrites, NoDuplicates, Serves;
  }

  // ----- What the plan is for

  /** A fetch that does not read names one that does, of the same buffer. */
  lemma BufferOfReads(groups: seq<Group>, fetches: seq<Fetch>, f: nat)
    requires Planned(groups, fetches) && f < |fetches| && fetches[f].bufferOf.Some?
    ensures var other := fetches[f].bufferOf.value;
            other < f && fetches[other].bufferOf.None? && KeyOf(groups, fetches[other]) == KeyOf(groups, fetches[f])
  {
    hide NoDuplicates, Serves, BufferFor;
    assert IsFirstOf(groups, fetches[..f], KeyOf(groups, fetches[f]), fetches[f].bufferOf);
    var other := fetches[f].bufferOf.value;
    forall e | 0 <= e < other
      ensures KeyOf(groups, fetches[e]) != KeyOf(groups, fetches[other])
    {
      assert fetches[..f][e] == fetches[e];
    }
    assert IsFirstOf(groups, fetches[..other], KeyOf(groups, fetches[other]), fetches[other].bufferOf);
  }

  lemma SameWriter(groups: seq<Group>, fetches: seq<Fetch>, e: nat, f: nat)
    requires Planned(groups, fetches) && e < |fetches| && f < |fetches|
    requires fetches[e].bufferOf.None? && fetches[f].bufferOf.None? && KeyOf(groups, fetches[e]) == KeyOf(groups, fetches[f])
    ensures e == f
  {
    hide NoDuplicates, Serves, BufferFor;
    assert IsFirstOf(groups, fetches[..e], KeyOf(groups, fetches[e]), None);
    assert IsFirstOf(groups, fetches[..f], KeyOf(groups, fetches[f]), None);
  }

  /** Every buffer that a zipped group needs is read by exactly one planned fetch. */
  lemma OneWriter(groups: seq<Group>, fetches: seq<Fetch>, g: nat, b: nat) returns (writer: nat)
    requires Planned(groups, fetches) && Has(groups, g, b)
    ensures writer < |fetches| && fetches[writer].bufferOf.None? && KeyOf(groups, fetches[writer]) == BufferFor(groups, g, b)
    ensures forall f :: 0 <= f < |fetches| && fetches[f].bufferOf.None? && KeyOf(groups, fetches[f]) == BufferFor(groups, g, b) ==> f == writer
  {
    var f := Server(groups, fetches, g, b);
    hide PlannedTo;
    writer := if fetches[f].bufferOf.Some? then fetches[f].bufferOf.value else f;
    if fetches[f].bufferOf.Some? {
      BufferOfReads(groups, fetches, f);
    }
    forall e | 0 <= e < |fetches| && fetches[e].bufferOf.None? && KeyOf(groups, fetches[e]) == BufferFor(groups, g, b)
      ensures e == writer
    {
      SameWriter(groups, fetches, e, writer);
    }
  }

  lemma Server(groups: seq<Group>, fetches: seq<Fetch>, g: nat, b: nat) returns (f: nat)
    requires Planned(groups, fetches) && Has(groups, g, b)
    ensures InGroups(groups, fetches) && f < |fetches| && SharesFetch(groups, g, b, fetches[f].group, fetches[f].position)
    ensures KeyOf(groups, fetches[f]) == BufferFor(groups, g, b) && Before(fetches[f], g, b + 1)
    ensures IsServer(groups, fetches, f, g, b)
  {
    assert Serves(groups, fetches, g, b);
    f :| 0 <= f < |fetches| && SharesFetch(groups, g, b, fetches[f].group, fetches[f].position)
      && Before(fetches[f], g, b + 1);
  }

  /** A planned fetch that a position takes for its own needs the same range. */
  ghost predicate ServersAgree(groups: seq<Group>, fetches: seq<Fetch>, demands: (nat, nat) -> Demand)
    requires InGroups(groups, fetches)
  {
    forall g: nat, b: nat, f: nat :: f < |fetches| && IsServer(groups, fetches, f, g, b) ==>
      demands(g, b).range == Needs(fetches[f], demands)
  }

  predicate IsServer(groups: seq<Group>, fetches: seq<Fetch>, f: nat, g: nat, b: nat)
    requires f < |fetches|
  {
    && Has(groups, g, b) && Has(groups, fetches[f].group, fetches[f].position)
    && SharesFetch(groups, g, b, fetches[f].group, fetches[f].position)
  }

  /** All positions that use one buffer need the same range of it. */
  ghost predicate NoConflict(groups: seq<Group>, demands: (nat, nat) -> Demand) {
    forall g: nat, b: nat, h: nat, c: nat :: Has(groups, g, b) && Has(groups, h, c) && SharesBuffer(groups, g, b, h, c) ==>
      demands(g, b).range == demands(h, c).range
  }

  ghost predicate AllMapped(groups: seq<Group>, demands: (nat, nat) -> Demand) {
    forall g: nat, b: nat :: Has(groups, g, b) ==> demands(g, b).range.Some?
  }

  /** Every read that is planned, and has something to read, succeeds. */
  ghost predicate ReadsSucceed(fetches: seq<Fetch>, demands: (nat, nat) -> Demand) {
    forall f :: 0 <= f < |fetches| && Writes(fetches[f], demands) ==>
      demands(fetches[f].group, fetches[f].position).read == Success
  }

  /** How a fetch that does not go ends. */
  function StatusOf(fetches: seq<Fetch>, f: nat, demands: (nat, nat) -> Demand): IOStatus
    requires f < |fetches|
  {
    match (Needs(fetches[f], demands), fetches[f].bufferOf)
    case (None, _) => NoOffsetInData
    case (Some(need), None) => if IsEmpty(need) then Success else demands(fetches[f].group, fetches[f].position).read
    case (Some(need), Some(other)) =>
      if other >= |fetches| || Needs(fetches[other], demands).None? then NoOffsetInData
      else if Needs(fetches[other], demands) == Some(need) then Success
      else BufferConflict
  }

  /** The first fetch that does not go. */
  ghost predicate EndsAt(fetches: seq<Fetch>, f: nat, demands: (nat, nat) -> Demand) {
    f < |fetches| && !Goes(fetches, f, demands) && forall e :: 0 <= e < f ==> Goes(fetches, e, demands)
  }

  ghost predicate AllGo(fetches: seq<Fetch>, demands: (nat, nat) -> Demand) {
    forall f :: 0 <= f < |fetches| ==> Goes(fetches, f, demands)
  }

  /** Every position's range is in its buffer. */
  ghost predicate InPlace(groups: seq<Group>, contents: map<Buffer, Range>, demands: (nat, nat) -> Demand) {
    forall g: nat, b: nat :: Has(groups, g, b) ==> Holds(contents, BufferFor(groups, g, b), demands(g, b).range)
  }

  /** A position gets what the fetch that serves it reads: that must be its own range, unless it needs nothing,
      or nothing is read and its range happens to be in the buffer from before. */
  predicate Served(groups: seq<Group>, was: map<Buffer, Range>, fetch: Fetch, g: nat, b: nat,
        demands: (nat, nat) -> Demand)
    requires Has(groups, g, b)
  {
    var mine, theirs := demands(g, b).range, Needs(fetch, demands);
    mine.Some? && (IsEmpty(mine.value) || mine == theirs
      || (theirs.Some? && IsEmpty(theirs.value) && Holds(was, BufferFor(groups, g, b), mine)))
  }

  ghost predicate AllServed(groups: seq<Group>, fetches: seq<Fetch>, was: map<Buffer, Range>, demands: (nat, nat) -> Demand)
    requires InGroups(groups, fetches)
  {
    forall g: nat, b: nat, f: nat :: f < |fetches| && IsServer(groups, fetches, f, g, b) ==>
      Served(groups, was, fetches[f], g, b, demands)
  }

  /** After a successful fetch a group finds its ranges in its buffers exactly when the fetches that the planner
      took for its own do need those ranges. */
  lemma FilledIsInPlace(groups: seq<Group>, fetches: seq<Fetch>, was: map<Buffer, Range>, now: map<Buffer, Range>,
        demands: (nat, nat) -> Demand)
    requires Planned(groups, fetches) && AllGo(fetches, demands)
    requires Filled(groups, fetches, now, demands) && Untouched(groups, fetches, was, now, demands)
    ensures InPlace(groups, now, demands) <==> AllServed(groups, fetches, was, demands)
  {
    PlanFacts(groups, fetches);
    hide PlannedTo, SharesFetch, Goes, Holds, BufferFor, Served, AllGo, FilledTo, Untouched;
    if InPlace(groups, now, demands) {
      forall g: nat, b: nat, f: nat | f < |fetches| && IsServer(groups, fetches, f, g, b)
        ensures Served(groups, was, fetches[f], g, b, demands)
      {
        PositionInPlace(groups, fetches, was, now, demands, f, g, b);
      }
    }
    if AllServed(groups, fetches, was, demands) {
      forall g: nat, b: nat | Has(groups, g, b)
        ensures Holds(now, BufferFor(groups, g, b), demands(g, b).range)
      {
        var f := Server(groups, fetches, g, b);
        PositionInPlace(groups, fetches, was, now, demands, f, g, b);
      }
    }
  }

  lemma PositionInPlace(groups: seq<Group>, fetches: seq<Fetch>, was: map<Buffer, Range>, now: map<Buffer, Range>,
        demands: (nat, nat) -> Demand, f: nat, g: nat, b: nat)
    requires Planned(groups, fetches) && AllGo(fetches, demands)
    requires Filled(groups, fetches, now, demands) && Untouched(groups, fetches, was, now, demands)
    requires f < |fetches| && IsServer(groups, fetches, f, g, b)
    ensures Holds(now, BufferFor(groups, g, b), demands(g, b).range) <==> Served(groups, was, fetches[f], g, b, demands)
  {
    PlanFacts(groups, fetches);
    hide PlannedTo;
    assert Goes(fetches, f, demands);
    assert KeyOf(groups, fetches[f]) == BufferFor(groups, g, b);
    assert Holds(now, KeyOf(groups, fetches[f]), Needs(fetches[f], demands));
    if IsEmpty(Needs(fetches[f], demands).value) {
      NothingWritten(groups, fetches, demands, f);
      assert Same(was, now, BufferFor(groups, g, b));
    }
  }

  /** If a fetch needs nothing, nothing is read into its buffer. */
  lemma NothingWritten(groups: seq<Group>, fetches: seq<Fetch>, demands: (nat, nat) -> Demand, f: nat)
    requires Planned(groups, fetches) && f < |fetches| && Goes(fetches, f, demands)
        && IsEmpty(Needs(fetches[f], demands).value)
    ensures InGroups(groups, fetches) && NotWritten(groups, fetches, KeyOf(groups, fetches[f]), demands)
  {
    PlanFacts(groups, fetches);
    hide PlannedTo, BufferFor;
    var writer := if fetches[f].bufferOf.Some? then fetches[f].bufferOf.value else f;
    if fetches[f].bufferOf.Some? {
      BufferOfReads(groups, fetches, f);
    }
    forall e | 0 <= e < |fetches| && Writes(fetches[e], demands)
      ensures KeyOf(groups, fetches[e]) != KeyOf(groups, fetches[f])
    {
      if KeyOf(groups, fetches[e]) == KeyOf(groups, fetches[f]) {
        SameWriter(groups, fetches, e, writer);
      }
    }
  }

  /** The planned fetches of one buffer need the same range. */
  ghost predicate PlannedAgree(groups: seq<Group>, fetches: seq<Fetch>, demands: (nat, nat) -> Demand)
    requires InGroups(groups, fetches)
  {
    forall e, f :: 0 <= e < |fetches| && 0 <= f < |fetches| && KeyOf(groups, fetches[e]) == KeyOf(groups, fetches[f]) ==>
      Needs(fetches[e], demands) == Needs(fetches[f], demands)
  }

  /** A fetch succeeds if and only if the planned steps map, the planned reads succeed, and no two planned fetches
      need different ranges of one buffer. */
  lemma GoesExactly(groups: seq<Group>, fetches: seq<Fetch>, demands: (nat, nat) -> Demand)
    requires Planned(groups, fetches)
    ensures InGroups(groups, fetches)
    ensures AllGo(fetches, demands) <==>
              && (forall f :: 0 <= f < |fetches| ==> Needs(fetches[f], demands).Some?)
              && ReadsSucceed(fetches, demands) && PlannedAgree(groups, fetches, demands)
  {
    PlanFacts(groups, fetches);
    hide PlannedTo, BufferFor, Needs;
    if AllGo(fetches, demands) {
      forall e, f | 0 <= e < |fetches| && 0 <= f < |fetches| && KeyOf(groups, fetches[e]) == KeyOf(groups, fetches[f])
        ensures Needs(fetches[e], demands) == Needs(fetches[f], demands)
      {
        var v := WriterOf(groups, fetches, demands, e);
        var w := WriterOf(groups, fetches, demands, f);
        SameWriter(groups, fetches, v, w);
      }
      forall f | 0 <= f < |fetches|
        ensures Needs(fetches[f], demands).Some?
        ensures Writes(fetches[f], demands) ==> demands(fetches[f].group, fetches[f].position).read == Success
      {
        assert Goes(fetches, f, demands);
      }
    }
    if (forall f :: 0 <= f < |fetches| ==> Needs(fetches[f], demands).Some?) && ReadsSucceed(fetches, demands)
       && PlannedAgree(groups, fetches, demands) {
      forall f | 0 <= f < |fetches|
        ensures Goes(fetches, f, demands)
      {
        if fetches[f].bufferOf.Some? {
          BufferOfReads(groups, fetches, f);
        }
      }
    }
  }

  /** What a fetch that goes needs is what the one fetch that reads its buffer needs. */
  lemma WriterOf(groups: seq<Group>, fetches: seq<Fetch>, demands: (nat, nat) -> Demand, f: nat) returns (writer: nat)
    requires Planned(groups, fetches) && InGroups(groups, fetches) && AllGo(fetches, demands) && f < |fetches|
    ensures writer < |fetches| && fetches[writer].bufferOf.None?
        && KeyOf(groups, fetches[writer]) == KeyOf(groups, fetches[f])
    ensures Needs(fetches[writer], demands) == Needs(fetches[f], demands)
  {
    hide PlannedTo, BufferFor, Needs;
    assert Goes(fetches, f, demands);
    writer := if fetches[f].bufferOf.Some? then fetches[f].bufferOf.value else f;
    if fetches[f].bufferOf.Some? {
      BufferOfReads(groups, fetches, f);
    }
  }

  /** No two positions conflict and nothing else is wrong, if and only if the fetch succeeds and each position's
      range is that of the fetch that serves it: a conflict goes unnoticed exactly where a fetch is shared. */
  lemma NoConflictExactly(groups: seq<Group>, fetches: seq<Fetch>, demands: (nat, nat) -> Demand)
    requires Planned(groups, fetches)
    ensures InGroups(groups, fetches)
    ensures AllGo(fetches, demands) && ServersAgree(groups, fetches, demands) <==>
            NoConflict(groups, demands) && AllMapped(groups, demands) && ReadsSucceed(fetches, demands)
  {
    GoesExactly(groups, fetches, demands);
    hide PlannedTo, Needs, AllGo, SharesFetch, Writes, PlannedAgree, ReadsSucceed;
    if AllGo(fetches, demands) && ServersAgree(groups, fetches, demands) {
      forall g: nat, b: nat, h: nat, c: nat | Has(groups, g, b) && Has(groups, h, c) && SharesBuffer(groups, g, b, h, c)
        ensures demands(g, b).range == demands(h, c).range
      {
        SameBufferSameRange(groups, fetches, demands, g, b, h, c);
      }
      forall g: nat, b: nat | Has(groups, g, b)
        ensures demands(g, b).range.Some?
      {
        var f := Server(groups, fetches, g, b);
      }
    }
    if NoConflict(groups, demands) && AllMapped(groups, demands) {
      NoConflictAgrees(groups, fetches, demands);
    }
  }

  lemma SameBufferSameRange(groups: seq<Group>, fetches: seq<Fetch>, demands: (nat, nat) -> Demand, g: nat, b: nat,
        h: nat, c: nat)
    requires Planned(groups, fetches) && InGroups(groups, fetches)
    requires PlannedAgree(groups, fetches, demands) && ServersAgree(groups, fetches, demands)
    requires Has(groups, g, b) && Has(groups, h, c) && SharesBuffer(groups, g, b, h, c)
    ensures demands(g, b).range == demands(h, c).range
  {
    hide PlannedTo, SharesFetch;
    var e := Server(groups, fetches, g, b);
    var f := Server(groups, fetches, h, c);
    assert IsServer(groups, fetches, e, g, b) && IsServer(groups, fetches, f, h, c);
  }

  lemma NoConflictAgrees(groups: seq<Group>, fetches: seq<Fetch>, demands: (nat, nat) -> Demand)
    requires InGroups(groups, fetches) && NoConflict(groups, demands) && AllMapped(groups, demands)
    ensures PlannedAgree(groups, fetches, demands) && ServersAgree(groups, fetches, demands)
    ensures forall f :: 0 <= f < |fetches| ==> Needs(fetches[f], demands).Some?
  {
    forall e, f | 0 <= e < |fetches| && 0 <= f < |fetches| && KeyOf(groups, fetches[e]) == KeyOf(groups, fetches[f])
      ensures Needs(fetches[e], demands) == Needs(fetches[f], demands)
    {
      assert SharesBuffer(groups, fetches[e].group, fetches[e].position, fetches[f].group, fetches[f].position);
    }
    forall g: nat, b: nat, f: nat | f < |fetches| && IsServer(groups, fetches, f, g, b)
      ensures demands(g, b).range == Needs(fetches[f], demands)
    {
      assert SharesBuffer(groups, g, b, fetches[f].group, fetches[f].position);
    }
  }
}
