/** Several sources iterated in lockstep: a common step is one that every source has indexed, and only the
    sources that ran out are reindexed. */
module SourceSets {
  import opened Common
  import opened Dealing
  import opened Reindexing

  /** The steps that a source has in its index. */
  ghost predicate InWindow(source: IndexedSource, step: nat)
    reads source
  {
    StartsBy(source.seen, step) && step < source.capacity
  }

  /** The source's window begins at or before a step. */
  ghost predicate StartsBy(seen: seq<nat>, step: nat) {
    seen != [] && WindowStart(seen, |seen| - 1) <= step
  }

  /** What a source has indexed, and will. */
  datatype Indexed = Indexed(capacity: nat, seen: seq<nat>, future: seq<nat>)

  ghost function Now(source: IndexedSource): Indexed
    reads source
  {
    Indexed(source.capacity, source.seen, source.future)
  }

  /** A source after the common capacity `cap` was used up: reindexed if it had no more. */
  ghost predicate Reindexed(was: Indexed, now: Indexed, cap: nat) {
    && now.seen + now.future == was.seen + was.future
    && cap <= now.capacity && StartsBy(now.seen, cap)
    && (was.capacity > cap || was.future == [] ==> now == was)
    && (was.capacity <= cap && was.future != [] ==> now.seen == was.seen + [now.capacity])
  }

  class SourceSet {
    const sources: seq<IndexedSource>
    var capacity: nat
    ghost var handed: nat   // all common steps below were handed out

    ghost predicate Sources()
      reads sources
    {
      && sources != [] && (forall i, j :: 0 <= i < j < |sources| ==> sources[i] != sources[j])
      && forall i :: 0 <= i < |sources| ==> sources[i].Valid()
    }

    ghost predicate Valid()
      reads this, sources
    {
      && Sources() && IsMinimum(capacity) && handed <= capacity
      && forall i :: 0 <= i < |sources| ==> StartsBy(sources[i].seen, handed)
    }

    ghost predicate IsMinimum(least: nat)
      reads this, sources
    {
      && (forall i :: 0 <= i < |sources| ==> least <= sources[i].capacity)
      && (exists i :: 0 <= i < |sources| && sources[i].capacity == least)
    }

    /** The common steps that are still to be handed out are in every source's index. */
    ghost predicate CommonStepsIndexed()
      reads this, sources
    {
      forall step: nat, i :: handed <= step < capacity && 0 <= i < |sources| ==> InWindow(sources[i], step)
    }

    constructor (sources: seq<IndexedSource>)
      requires sources != [] && (forall i, j :: 0 <= i < j < |sources| ==> sources[i] != sources[j])
      requires forall i :: 0 <= i < |sources| ==> sources[i].Valid() && |sources[i].seen| == 1
      ensures Valid() && this.sources == sources && handed == 0 && CommonStepsIndexed()
    {
      hide Growing;
      this.sources := sources;
      handed, capacity := 0, 0;
      new;
      capacity := MinCapacity();
    }

    method MinCapacity() returns (least: nat)
      requires sources != []
      ensures IsMinimum(least)
    {
      least := sources[0].capacity;
      for i := 0 to |sources|
        invariant forall j :: 0 <= j < i ==> least <= sources[j].capacity
        invariant exists j :: 0 <= j < |sources| && sources[j].capacity == least
      {
        if sources[i].capacity < least {
          least := sources[i].capacity;
        }
      }
    }

    /** What a policy does between triggers: hand out steps below the common capacity. */
    ghost method HandOut(end: nat)
      requires Valid() && handed <= end <= capacity
      modifies this`handed
      ensures Valid() && handed == end
      ensures forall step: nat, i :: old(handed) <= step < end && 0 <= i < |sources| ==> InWindow(sources[i], step)
    {
      assert forall i :: 0 <= i < |sources| ==> sources[i].Valid();
      handed := end;
    }

    /** Called when all common steps were handed out. A source that has more is left alone, one that ran out
        is reindexed; and if one of those is exhausted there are no more common steps. */
    method Trigger() returns (more: bool)
      requires Valid() && handed == capacity
      modifies this`capacity, sources
      ensures Valid() && handed == old(handed) && capacity >= old(capacity) && CommonStepsIndexed()
      ensures forall i :: 0 <= i < |sources| ==> Reindexed(old(Now(sources[i])), Now(sources[i]), old(capacity))
      ensures more <==> forall i :: 0 <= i < |sources| && old(sources[i].capacity == capacity) ==>
          old(sources[i].future) != []
      ensures !more ==>
          capacity == old(capacity) && exists i ::
              0 <= i < |sources| && sources[i].future == [] && sources[i].capacity == capacity
    {
      hide IndexedSource.Valid, Reindexed, Growing, StartsBy;
      ghost var was := Snapshot();
      more := ReindexAll(was);
      AllReindexed(was);
      var least := MinCapacity();
      capacity := least;
      StepsIndexed();
    }

    lemma AllReindexed(was: seq<Indexed>)
      requires Sources() && |was| == |sources| && forall i :: 0 <= i < |sources| ==>
          Reindexed(was[i], Now(sources[i]), capacity)
      ensures forall i :: 0 <= i < |sources| ==> capacity <= sources[i].capacity && StartsBy(sources[i].seen, capacity)
      ensures forall i :: 0 <= i < |sources| && was[i].future == [] ==>
          sources[i].future == [] && sources[i].capacity == was[i].capacity
    {
      hide Growing, StartsBy, IndexedSource.Valid;
      forall i | 0 <= i < |sources|
        ensures capacity <= sources[i].capacity && StartsBy(sources[i].seen, capacity)
        ensures was[i].future == [] ==> sources[i].future == [] && sources[i].capacity == was[i].capacity
      {
        assert Reindexed(was[i], Now(sources[i]), capacity);
      }
    }

    ghost function Snapshot(): (was: seq<Indexed>)
      reads this, sources
      ensures |was| == |sources| && forall i :: 0 <= i < |sources| ==> was[i] == Now(sources[i])
    {
      seq(|sources|, i requires 0 <= i < |sources| reads sources => Now(sources[i]))
    }

    method ReindexAll(ghost was: seq<Indexed>) returns (more: bool)
      requires Sources() && |was| == |sources|
      requires forall i :: 0 <= i < |sources| ==>
          was[i] == Now(sources[i]) && capacity <= was[i].capacity && StartsBy(was[i].seen, capacity)
      modifies sources
      ensures Sources() && forall i :: 0 <= i < |sources| ==> Reindexed(was[i], Now(sources[i]), capacity)
      ensures more <==> forall i :: 0 <= i < |sources| && was[i].capacity == capacity ==> was[i].future != []
    {
      hide IndexedSource.Valid, Reindexed, Growing, StartsBy;
      more := true;
      for i := 0 to |sources|
        invariant Sources()
        invariant forall j :: i <= j < |sources| ==> Now(sources[j]) == was[j]
        invariant forall j :: 0 <= j < i ==> Reindexed(was[j], Now(sources[j]), capacity)
        invariant more <==> forall j :: 0 <= j < i && was[j].capacity == capacity ==> was[j].future != []
      {
        if sources[i].capacity <= capacity {
          var again := ReindexOne(i);
          more := again && more;
        } else {
          LeftAlone(sources[i], capacity);
        }
      }
    }

    lemma StepsIndexed()
      requires Valid()
      ensures CommonStepsIndexed()
    {
    }

    method ReindexOne(i: nat) returns (more: bool)
      requires Sources() && i < |sources| && sources[i].capacity == capacity
      modifies sources[i]
      ensures Sources()
      ensures Reindexed(old(Now(sources[i])), Now(sources[i]), capacity) && (more <==> old(sources[i].future) != [])
    {
      more := sources[i].Trigger();
      WindowAtMost(sources[i]);
    }
  }

  lemma WindowAtMost(source: IndexedSource)
    requires source.Valid()
    ensures WindowStart(source.seen, |source.seen| - 1) <= source.capacity
  {
    var n := |source.seen| - 1;
    assert n > 0 ==> (source.seen + source.future)[n - 1] <= (source.seen + source.future)[n];
  }

  lemma LeftAlone(source: IndexedSource, cap: nat)
    requires source.capacity > cap && StartsBy(source.seen, cap)
    ensures Reindexed(Now(source), Now(source), cap)
  {
  }
}
