/** What the calls of a rank's threads come back with, when the rank departs, and that its threads do not keep each
    other busy. */
module WindowProgress {
  import opened Common
  import opened Counting
  import opened Dealing
  import opened Reindexing
  import opened WindowHandOut

  // ----- What a call returns

  predicate Leaving(pc: Pc) {
    pc == Free(LeaveLock) || pc == Locked(LeaveCount) || pc == Locked(LeaveCheck) || pc == Locked(LeaveCheckDeparted)
    || pc == Locked(LeaveDepart)
  }

  /** A thread inside of a call, which knows why when it is about to come back without a batch. */
  predicate Calling(v: Vars, th: Thread) {
    && th.pc != Free(Idle) && !Leaving(th.pc)
    && (th.pc == Locked(UnlockLeave) ==> v.exhausted || v.departed)
    && (th.holding ==> th.pc == Free(Release))
  }

  /** Where an access leads inside of a call: on, or back with a batch, or back for a reason. */
  predicate CallsOn(v: Vars, e: Effect) {
    && (if e.thread.pc == Free(Idle) then e.thread.holding || e.vars.exhausted || e.vars.departed
        else Calling(e.vars, e.thread))
    && e.vars.departed == v.departed
  }

  lemma ActCalls(v: Vars, th: Thread, t: nat, choice: Choice)
    requires v.core.seen != [] && Calling(v, th)
    ensures CallsOn(v, Act(v, th, t, choice))
  {
    match th.pc
    case Free(_) => hide ActFree; FreeCalls(v, th, t, choice);
    case Read(_) => hide ActRead; ReadCalls(v, th);
    case Locked(_) => hide ActLocked; LockedCalls(v, th);
    case Publish(_) => hide ActPublish; PublishCalls(v, th);
  }

  lemma FreeCalls(v: Vars, th: Thread, t: nat, choice: Choice)
    requires v.core.seen != [] && Calling(v, th) && th.pc.Free?
    ensures CallsOn(v, ActFree(v, th, t, choice))
  {
    match th.pc.free
    case Idle =>
    case Release =>
    case JoinLock =>
    case LeaveLock =>
    case CheckExhausted =>
    case Lock =>
    case Claim =>
    case Exchange =>
    case Unclaim =>
  }

  lemma PublishCalls(v: Vars, th: Thread)
    requires v.core.seen != [] && Calling(v, th) && th.pc.Publish?
    ensures CallsOn(v, ActPublish(v, th))
  {
    hide Blocks;
  }

  lemma ReadCalls(v: Vars, th: Thread)
    requires Calling(v, th) && th.pc.Read?
    ensures CallsOn(v, Effect(v, ActRead(v, th)))
  {
    hide First;
  }

  lemma LockedCalls(v: Vars, th: Thread)
    requires v.core.seen != [] && Calling(v, th) && th.pc.Locked?
    ensures CallsOn(v, ActLocked(v, th))
  {
    match th.pc.locked
    case JoinCheck =>
    case JoinCount =>
    case LeaveCount =>
    case LeaveCheck =>
    case LeaveCheckDeparted =>
    case LeaveDepart =>
    case CheckLocked =>
    case CompareCapacity =>
    case Drain =>
    case Reindex =>
    case StoreExhausted =>
    case UnlockLeave =>
    case UnlockLoop =>
  }

  /** Once set, the two marks stay. */
  lemma ActKeepsMarks(v: Vars, th: Thread, t: nat, choice: Choice)
    requires v.core.seen != []
    ensures var e := Act(v, th, t, choice).vars; (v.exhausted ==> e.exhausted) && (v.departed ==> e.departed)
  {
    match th.pc
    case Free(_) =>
    case Read(_) => hide First;
    case Locked(_) =>
    case Publish(_) => hide Blocks;
  }

  lemma StepKeepsCalling(s: State, u: nat, choice: Choice, t: nat)
    requires s.vars.core.seen != [] && t < |s.threads| && u < |s.threads| && Calling(s.vars, s.threads[t])
    ensures var n := Step(s, u, choice); var th := n.threads[t];
            && |n.threads| == |s.threads|
            && if th.pc == Free(Idle) then th.holding || n.vars.exhausted || n.vars.departed else Calling(n.vars, th)
  {
    hide Act;
    ActKeepsMarks(s.vars, s.threads[u], u, choice);
    if u == t {
      ActCalls(s.vars, s.threads[t], t, choice);
    }
  }

  /** The thread begins a call in the first step of a run, and is inside of it until step n. */
  ghost predicate OneCall(states: seq<State>, moves: seq<(nat, Choice)>, t: nat, n: nat)
    requires IsRun(states, moves) && n <= |moves|
  {
    && n > 0 && moves[0] == (t, CallNext) && states[0].threads[t].pc == Free(Idle)
    && forall i :: 0 < i < n && t < |states[i].threads| ==> states[i].threads[t].pc != Free(Idle)
  }

  lemma {:induction false} StaysInCall(states: seq<State>, moves: seq<(nat, Choice)>, t: nat, n: nat)
    requires IsRun(states, moves) && n <= |moves| && Inv(states[0]) && OneCall(states, moves, t, n)
    ensures t < |states[n].threads|
    ensures var th := states[n].threads[t];
            if th.pc == Free(Idle) then th.holding || states[n].vars.exhausted || states[n].vars.departed
            else Calling(states[n].vars, th)
  {
    hide Inv, Step, Calling;
    var i := n - 1;
    if n == 1 {
      assert IsStep(states[0], moves[0].0, moves[0].1, states[1]);
      CallEnters(states[0], t);
    } else {
      StaysInCall(states, moves, t, i);
      assert IsStep(states[i], moves[i].0, moves[i].1, states[i + 1]);
      StepKeepsCalling(states[i], moves[i].0, moves[i].1, t);
    }
  }

  lemma CallEnters(s: State, t: nat)
    requires Inv(s) && t < |s.threads| && s.threads[t].pc == Free(Idle)
    ensures var n := Step(s, t, CallNext);
            |n.threads| == |s.threads| && Calling(n.vars, n.threads[t]) && n.threads[t].pc != Free(Idle)
  {
    hide Shared, Quiet, Distinct;
  }

  /** In any run, a call comes back without a batch only if the rank is exhausted or departed. */
  lemma CallReturns(states: seq<State>, moves: seq<(nat, Choice)>, t: nat, n: nat)
    requires IsRun(states, moves) && n <= |moves| && Inv(states[0]) && OneCall(states, moves, t, n)
    requires t < |states[n].threads| && states[n].threads[t].pc == Free(Idle)
    ensures states[n].threads[t].holding || states[n].vars.exhausted || states[n].vars.departed
  {
    hide Inv;
    StaysInCall(states, moves, t, n);
  }

  // ----- When a rank departs

  predicate IsLastLeaver(th: Thread) {
    th.pc == Locked(LeaveCheck) || th.pc == Locked(LeaveCheckDeparted) || th.pc == Locked(LeaveDepart)
  }

  /** Some thread takes part, or the last one is on its way out, or it is settled why none does. */
  ghost predicate Accounted(s: State) {
    s.vars.activeUnits > 0 || s.vars.exhausted || s.vars.departed
    || exists t :: 0 <= t < |s.threads| && IsLastLeaver(s.threads[t])
  }

  /** What an access does to the last thread that leaves, and to the count that makes it the last. */
  predicate LeavesOn(v: Vars, th: Thread, e: Effect) {
    && (v.activeUnits > 0 && e.vars.activeUnits <= 0 ==> IsLastLeaver(e.thread))
    && (IsLastLeaver(th) ==> IsLastLeaver(e.thread) || e.vars.exhausted || e.vars.departed)
  }

  lemma ActLeavesOn(v: Vars, th: Thread, t: nat, choice: Choice)
    requires v.core.seen != []
    ensures LeavesOn(v, th, Act(v, th, t, choice))
  {
    match th.pc
    case Free(_) =>
    case Read(_) => hide First;
    case Locked(_) => hide ActLocked; LockedLeavesOn(v, th);
    case Publish(_) => hide Blocks;
  }

  lemma LockedLeavesOn(v: Vars, th: Thread)
    requires v.core.seen != [] && th.pc.Locked?
    ensures LeavesOn(v, th, ActLocked(v, th))
  {
    match th.pc.locked
    case JoinCheck =>
    case JoinCount =>
    case LeaveCount =>
    case LeaveCheck =>
    case LeaveCheckDeparted =>
    case LeaveDepart =>
    case CheckLocked =>
    case CompareCapacity =>
    case Drain =>
    case Reindex =>
    case StoreExhausted =>
    case UnlockLeave =>
    case UnlockLoop =>
  }

  lemma StepAccounted(s: State, t: nat, choice: Choice)
    requires s.vars.core.seen != [] && t < |s.threads| && Accounted(s)
    ensures Accounted(Step(s, t, choice))
  {
    hide Act;
    var n := Step(s, t, choice);
    ActLeavesOn(s.vars, s.threads[t], t, choice);
    ActKeepsMarks(s.vars, s.threads[t], t, choice);
    if s.vars.activeUnits > 0 && n.vars.activeUnits <= 0 {
      assert IsLastLeaver(n.threads[t]);
    } else if s.vars.activeUnits <= 0 && !s.vars.exhausted && !s.vars.departed {
      var u :| 0 <= u < |s.threads| && IsLastLeaver(s.threads[u]);
      assert u != t ==> n.threads[u] == s.threads[u];
      assert u == t && !n.vars.exhausted && !n.vars.departed ==> IsLastLeaver(n.threads[t]);
    }
  }

  /** In any run, once threads took part and the last of them has left, the rank is departed, unless it is exhausted. */
  lemma {:induction false} LastLeaverDeparts(states: seq<State>, moves: seq<(nat, Choice)>, n: nat)
    requires IsRun(states, moves) && n <= |moves| && states[0].vars.activeUnits > 0
    ensures Accounted(states[n])
    ensures states[n].vars.activeUnits == 0 && (forall t :: 0 <= t < |states[n].threads| ==> !IsLastLeaver(states[n].threads[t]))
        ==> states[n].vars.departed || states[n].vars.exhausted
  {
    hide Step;
    if n > 0 {
      var i := n - 1;
      LastLeaverDeparts(states, moves, i);
      assert IsStep(states[i], moves[i].0, moves[i].1, states[i + 1]);
      hide Accounted;
      StepAccounted(states[i], moves[i].0, moves[i].1);
    }
    if states[n].vars.activeUnits == 0 && !states[n].vars.departed && !states[n].vars.exhausted {
      NotAccounted(states[n]);
    }
  }

  lemma NotAccounted(s: State)
    requires Accounted(s) && s.vars.activeUnits == 0 && !s.vars.departed && !s.vars.exhausted
    ensures exists t :: 0 <= t < |s.threads| && IsLastLeaver(s.threads[t])
  {
  }

  /** An exhausted or departed rank hands out nothing any more. */
  lemma StepHandsOutNothing(s: State, t: nat, choice: Choice)
    requires Inv(s) && t < |s.threads| && (s.vars.exhausted || s.vars.departed)
    ensures var n := Step(s, t, choice).vars; n.log == s.vars.log && (n.exhausted || n.departed)
  {
    hide Deal, Growing, Act, Dealt, Versions, Settled, Closed, Distinct, Quiet, Loaded, Phase, Nth, Finished;
    if s.vars.departed {
      DepartedIsFinal(s, t, choice);
    } else {
      assert Knows(s.vars, s.threads[t], t);
      ActKeepsMarks(s.vars, s.threads[t], t, choice);
      ActReceives(s.vars, s.threads[t], t, choice);
      if Swaps(s.vars, s.threads[t]) {
        ExhaustedCannotClaim(s.vars, s.threads[t]);
      }
    }
  }

  lemma ExhaustedCannotClaim(v: Vars, th: Thread)
    requires Shared(v) && Loaded(v.core, v.windows, th) && v.exhausted
    ensures !Swaps(v, th)
  {
    hide Deal, Growing, Even, Half, Nth, First, Offset, Dealt, Loaded;
    if Swaps(v, th) {
      ClaimIsCurrent(v, th);
      GrowingPrefix(v.core.seen, v.future);
      FirstBlock(v.core, v.core.round);
    }
  }

  lemma {:induction false} NothingMore(states: seq<State>, moves: seq<(nat, Choice)>, n: nat)
    requires IsRun(states, moves) && n <= |moves| && Inv(states[0]) && (states[0].vars.exhausted || states[0].vars.departed)
    ensures Inv(states[n]) && states[n].vars.log == states[0].vars.log
    ensures states[n].vars.exhausted || states[n].vars.departed
  {
    hide Inv, Step;
    if n > 0 {
      var i := n - 1;
      NothingMore(states, moves, i);
      assert IsStep(states[i], moves[i].0, moves[i].1, states[i + 1]);
      StepInv(states[i], moves[i].0, moves[i].1);
      StepHandsOutNothing(states[i], moves[i].0, moves[i].1);
    }
  }

  // ----- Every run is bounded

  /** What a thread's way depends on: whether a claim can succeed, and the version and round as they are. */
  datatype View = View(open: bool, version: nat, round: nat)

  function ViewOf(c: Core): View {
    View(Even(c.version) && !Closed(c.rank, c.window, c.round), c.version, c.round)
  }

  /** Whether a thread goes by a round or version that is not the current one. */
  predicate Stale(view: View, th: Thread) {
    match th.pc
    case Free(free) => (free.Claim? || free.Exchange?) && (th.round != view.round || th.version != view.version)
    case Read(read) =>
      !read.LoadRound? && (th.round != view.round || (!read.LoadVersion? && th.version != view.version))
    case _ => false
  }

  function ReadWay(read: ReadPc): nat {
    match read
    case LoadRound => 9
    case LoadVersion => 8
    case LoadCapacity => 7
    case LoadStart => 6
    case LoadBase => 5
    case LoadBefore => 4
    case Recheck => 3
  }

  function FreeWay(open: bool, free: FreePc): nat {
    match free
    case Idle => 0
    case Exchange => 1
    case Claim => 2
    case LeaveLock => 8
    case CheckExhausted => if open then 10 else 22
    case Lock => if open then 21 else 14
    case Unclaim => 23
    case Release => 24
    case JoinLock => 26
  }

  function LockedWay(open: bool, locked: LockedPc): nat {
    match locked
    case UnlockLeave => 1
    case StoreExhausted => 2
    case Reindex => 3
    case Drain => 4
    case LeaveDepart => 4
    case LeaveCheckDeparted => 5
    case LeaveCheck => 6
    case LeaveCount => 7
    case UnlockLoop => if open then 11 else 23
    case CompareCapacity => if open then 19 else 12
    case CheckLocked => if open then 20 else 13
    case JoinCount => 24
    case JoinCheck => 25
  }

  function PublishWay(publish: PublishPc): nat {
    match publish
    case PubEnd => 1
    case PubCapacity => 2
    case PubBase => 3
    case PubStart => 4
    case PubBefore => 5
    case PubLoadStart => 6
    case PubBegin => 7
    case PubLoad => 8
  }

  /** How many accesses a thread is from its next claim, trigger or return, if nothing changes in between. */
  function Way(view: View, th: Thread): (n: nat)
    ensures n <= 66
  {
    (match th.pc
     case Free(free) => FreeWay(view.open, free)
     case Read(read) => ReadWay(read) + if th.locked then if view.open then 9 else 2 else if view.open then 0 else 12
     case Locked(locked) => LockedWay(view.open, locked)
     case Publish(publish) => PublishWay(publish))
    + if Stale(view, th) then 40 else 0
  }

  function Weigh(view: View): Thread -> nat {
    th => Way(view, th)
  }

  /** The changes of the version until the window is as the trigger left the index. */
  function Pending(c: Core, publish: Option<PublishPc>): nat
    requires c.seen != []
  {
    match publish
    case Some(p) => if p.PubLoad? || p.PubBegin? then 2 else 1
    case None => if c.window.cap != Capacity(c) then 3 else 0
  }

  function PublishOf(th: Thread): Option<PublishPc> {
    if th.pc.Publish? then Some(th.pc.publish) else None
  }

  /** Blocks and triggers to come, and changes of the version. */
  ghost function Ahead(v: Vars, publish: Option<PublishPc>): int
    requires v.core.seen != []
  {
    |Deal(v.core.seen + v.future, v.core.rank.size)| - |v.log| + 4 * |v.future| + Pending(v.core, publish)
  }

  /** The version is found odd: the thread looks again until the window is published. */
  predicate Spins(v: Vars, th: Thread) {
    th.pc == Read(LoadVersion) && !Even(v.core.version)
  }

  /** An access that changes anything is a claim, a trigger or a change of the version, or takes the thread further. */
  ghost predicate GoesOn(v: Vars, th: Thread, e: Effect)
    requires v.core.seen != [] && e.vars.core.seen != []
  {
    || Ahead(e.vars, PublishOf(e.thread)) < Ahead(v, PublishOf(th))
    || (Ahead(e.vars, PublishOf(e.thread)) == Ahead(v, PublishOf(th)) && ViewOf(e.vars.core) == ViewOf(v.core)
        && Way(ViewOf(v.core), e.thread) < Way(ViewOf(v.core), th))
  }

  lemma FreeGoesOn(v: Vars, th: Thread, t: nat, choice: Choice)
    requires Shared(v) && Knows(v, th, t) && th.pc.Free? && th.pc.free != Idle
    requires ActFree(v, th, t, choice) != Effect(v, th)
    ensures var e := ActFree(v, th, t, choice); e.vars.core.seen == v.core.seen && GoesOn(v, th, e)
  {
    NotLocked(v, th, t);
    hide Even, Half, Deal, Growing, Shared, Loaded, Role, Phase, Closed, First;
    if Swaps(v, th) {
      ClaimGoesOn(v, th, t, choice);
    } else {
      FreeShortens(v, th, t, choice);
    }
  }

  lemma ClaimGoesOn(v: Vars, th: Thread, t: nat, choice: Choice)
    requires v.core.seen != [] && Swaps(v, th)
    ensures var e := ActFree(v, th, t, choice);
            e.vars.core.seen == v.core.seen && Ahead(e.vars, PublishOf(e.thread)) < Ahead(v, PublishOf(th))
  {
    hide Deal;
  }

  lemma FreeShortens(v: Vars, th: Thread, t: nat, choice: Choice)
    requires v.core.seen != [] && th.pc.Free? && th.pc.free != Idle && !th.locked && !Swaps(v, th)
    requires ActFree(v, th, t, choice) != Effect(v, th)
    ensures var e := ActFree(v, th, t, choice);
            && e.vars.core == v.core && e.vars.future == v.future && e.vars.log == v.log && !e.thread.pc.Publish?
            && Way(ViewOf(v.core), e.thread) < Way(ViewOf(v.core), th)
  {
    hide Even, Half, Closed, First, Deal;
    match th.pc.free
    case Idle =>
    case Release =>
    case JoinLock =>
    case LeaveLock =>
    case CheckExhausted =>
    case Lock =>
    case Claim =>
    case Exchange =>
    case Unclaim =>
  }

  lemma NotLocked(v: Vars, th: Thread, t: nat)
    requires Role(v, th, t) && th.pc.Free?
    ensures !th.locked
  {
  }

  /** A fresh read ends in a claim exactly when one can succeed. */
  lemma FreshRecheck(v: Vars, th: Thread, t: nat)
    requires Shared(v) && Knows(v, th, t) && th.pc == Read(Recheck) && th.round == v.core.round && th.version == v.core.version
    requires v.core.window.base <= v.core.round
    ensures Even(v.core.version) && th.window == v.core.window
    ensures First(v.core.rank, th.window, th.round) < th.window.cap <==> ViewOf(v.core).open
  {
    hide Even, Half, Deal, Growing, Dealt, Versions, First, Nth, Finished, Settled, Role, Phase;
  }

  /** A locked read of a round that was claimed since does not end in a trigger. */
  lemma StaleRecheck(v: Vars, th: Thread, t: nat)
    requires Shared(v) && Knows(v, th, t) && th.pc == Read(Recheck) && th.locked && th.round != v.core.round
    ensures ActRead(v, th).pc == Locked(UnlockLoop)
  {
    hide Even, Half, Deal, Growing, Dealt, First, Nth, Finished, Closed;
    if v.core.version == th.version && th.window.base <= th.round && First(v.core.rank, th.window, th.round) >= th.window.cap {
      LockedRead(v, th);
    }
  }

  lemma ReadGoesOn(v: Vars, th: Thread, t: nat)
    requires Shared(v) && Knows(v, th, t) && th.pc.Read? && !Spins(v, th)
    requires Even(v.core.version) ==> v.core.window.base <= v.core.round
    ensures Way(ViewOf(v.core), ActRead(v, th)) < Way(ViewOf(v.core), th) && !ActRead(v, th).pc.Publish?
  {
    if th.pc == Read(Recheck) {
      RecheckGoesOn(v, th, t);
    } else {
      hide Half, Even, Shared, Knows, First, Closed;
    }
  }

  lemma RecheckGoesOn(v: Vars, th: Thread, t: nat)
    requires Shared(v) && Knows(v, th, t) && th.pc == Read(Recheck)
    requires Even(v.core.version) ==> v.core.window.base <= v.core.round
    ensures Way(ViewOf(v.core), ActRead(v, th)) < Way(ViewOf(v.core), th)
  {
    if th.round == v.core.round && th.version == v.core.version {
      ReadIsEven(v, th, t);
      FreshRecheck(v, th, t);
    } else if th.locked && th.round != v.core.round {
      StaleRecheck(v, th, t);
    }
    hide Half, Even, Shared, Knows, First, Closed;
  }

  lemma ReadIsEven(v: Vars, th: Thread, t: nat)
    requires v.core.seen != [] && Knows(v, th, t) && th.pc == Read(Recheck)
    ensures Even(th.version)
  {
    hide Even, Half, Role, Phase;
  }

  lemma LockedShortens(v: Vars, th: Thread, t: nat)
    requires v.core.seen != [] && th.pc.Locked? && Role(v, th, t) && ActLocked(v, th) != Effect(v, th)
    requires th.pc != Locked(Reindex) && !(th.pc == Locked(CompareCapacity) && v.core.window.cap != Capacity(v.core))
    ensures var e := ActLocked(v, th);
            && e.vars.core == v.core && e.vars.future == v.future && e.vars.log == v.log && !e.thread.pc.Publish?
            && Way(ViewOf(v.core), e.thread) < Way(ViewOf(v.core), th)
  {
    LockedHolds(v, th, t);
    hide Even, Half, Closed, First, Deal, Role;
    match th.pc.locked
    case JoinCheck =>
    case JoinCount =>
    case LeaveCount =>
    case LeaveCheck =>
    case LeaveCheckDeparted =>
    case LeaveDepart =>
    case CheckLocked =>
    case CompareCapacity =>
    case Drain =>
    case Reindex =>
    case StoreExhausted =>
    case UnlockLeave =>
    case UnlockLoop =>
  }

  lemma LockedHolds(v: Vars, th: Thread, t: nat)
    requires Role(v, th, t) && th.pc.Locked?
    ensures th.locked
  {
  }

  lemma LockedGoesOn(v: Vars, th: Thread, t: nat)
    requires Shared(v) && Knows(v, th, t) && th.pc.Locked? && ActLocked(v, th) != Effect(v, th)
    ensures var e := ActLocked(v, th); e.vars.core.seen != [] && GoesOn(v, th, e)
  {
    hide Even, Half, Deal, Growing, Dealt, Versions, First, Nth, Finished, Closed, Settled, Loaded, Role, InWindow;
    if th.pc == Locked(Reindex) {
      ReindexGoesOn(v, th);
    } else if th.pc == Locked(CompareCapacity) && v.core.window.cap != Capacity(v.core) {
      hide Phase;
    } else {
      hide Phase, Shared, ActLocked, Way;
      LockedShortens(v, th, t);
    }
  }

  lemma ReindexGoesOn(v: Vars, th: Thread)
    requires v.core.seen != [] && th.pc == Locked(Reindex) && v.core.window.cap == Capacity(v.core)
    ensures var e := ActLocked(v, th); e.vars.core.seen != [] && GoesOn(v, th, e)
  {
    hide Even, Half, Deal, First, Closed;
    if v.future != [] {
      assert v.core.seen + [v.future[0]] + v.future[1..] == v.core.seen + v.future;
    }
  }

  lemma PublishGoesOn(v: Vars, th: Thread, t: nat)
    requires Shared(v) && Knows(v, th, t) && th.pc.Publish?
    ensures var e := ActPublish(v, th); e.vars.core.seen == v.core.seen && GoesOn(v, th, e)
  {
    PublishPhase(v, th, t);
    hide Shared, Knows, Way;
    if th.pc.publish == PubBegin || th.pc.publish == PubEnd {
      hide ViewOf;
      VersionGoesOn(v, th);
    } else {
      hide ActPublish;
      PublishShortens(v, th);
      assert PublishOf(th).Some? && PublishOf(ActPublish(v, th).thread).Some?;
    }
  }

  lemma VersionGoesOn(v: Vars, th: Thread)
    requires v.core.seen != [] && (th.pc == Publish(PubBegin) || th.pc == Publish(PubEnd))
    requires th.pc.publish == PubEnd ==> v.core.window.cap == Capacity(v.core)
    ensures var e := ActPublish(v, th);
            e.vars.core.seen == v.core.seen && Ahead(e.vars, PublishOf(e.thread)) < Ahead(v, PublishOf(th))
  {
    hide Deal;
  }

  lemma PublishShortens(v: Vars, th: Thread)
    requires v.core.seen != [] && th.pc.Publish? && th.pc.publish != PubBegin && th.pc.publish != PubEnd
    requires th.pc.publish == PubLoad || !Even(v.core.version)
    ensures var e := ActPublish(v, th);
            && e.vars.core.seen == v.core.seen && e.vars.core.rank == v.core.rank && e.vars.future == v.future
            && e.vars.log == v.log && e.thread.pc.Publish?
            && Pending(e.vars.core, PublishOf(e.thread)) == Pending(v.core, PublishOf(th))
            && ViewOf(e.vars.core) == ViewOf(v.core) && Way(ViewOf(v.core), e.thread) < Way(ViewOf(v.core), th)
  {
    hide Even, Half, Closed, Blocks, Way;
    PublishWays(v, th);
    match th.pc.publish
    case PubLoad =>
    case PubBegin =>
    case PubLoadStart =>
    case PubBefore =>
    case PubStart =>
    case PubBase =>
    case PubCapacity =>
    case PubEnd =>
  }

  lemma PublishWays(v: Vars, th: Thread)
    requires v.core.seen != [] && th.pc.Publish? && th.pc.publish != PubBegin && th.pc.publish != PubEnd
    ensures Way(ViewOf(v.core), ActPublish(v, th).thread) < Way(ViewOf(v.core), th)
  {
    hide Even, Half, Closed, Blocks, ViewOf, Put;
  }

  /** While a window is published its version is odd, and its capacity is stored at the end. */
  lemma PublishPhase(v: Vars, th: Thread, t: nat)
    requires v.core.seen != [] && Knows(v, th, t) && th.pc.Publish?
    ensures th.pc.publish == PubLoad || th.pc.publish == PubBegin || !Even(v.core.version)
    ensures th.pc.publish == PubEnd ==> v.core.window.cap == Capacity(v.core)
  {
    hide Half, Deal, Nth, Offset, Closed, Loaded, Role, InWindow, Blocks;
    Halves(th.version);
  }

  lemma ActGoesOn(v: Vars, th: Thread, t: nat, choice: Choice)
    requires Shared(v) && Knows(v, th, t) && th.pc != Free(Idle) && !Spins(v, th) && Act(v, th, t, choice) != Effect(v, th)
    requires Even(v.core.version) ==> v.core.window.base <= v.core.round
    ensures var e := Act(v, th, t, choice); e.vars.core.seen != [] && GoesOn(v, th, e)
  {
    assert v.core.seen != [];
    hide ActFree, ActRead, ActLocked, ActPublish, Shared, Knows, Way, ViewOf, Deal;
    match th.pc
    case Free(_) => FreeGoesOn(v, th, t, choice);
    case Read(_) =>
      ReadGoesOn(v, th, t);
      assert PublishOf(th) == PublishOf(ActRead(v, th)) == None;
    case Locked(_) => LockedGoesOn(v, th, t);
    case Publish(_) => PublishGoesOn(v, th, t);
  }

  // ----- The work of all threads

  function Publishing(s: State): Option<PublishPc> {
    if s.vars.mutex.Some? && s.vars.mutex.value < |s.threads| then PublishOf(s.threads[s.vars.mutex.value]) else None
  }

  ghost function Work(s: State): int
    requires s.vars.core.seen != []
  {
    Ahead(s.vars, Publishing(s)) * (100 * |s.threads|) + Sum(s.threads, Weigh(ViewOf(s.vars.core)))
  }

  /** A thread without the mutex changes neither window nor index. */
  lemma UnlockedKeepsWindow(v: Vars, th: Thread, t: nat, choice: Choice)
    requires v.core.seen != [] && Role(v, th, t) && !th.locked
    ensures var e := Act(v, th, t, choice);
            && e.vars.core.seen == v.core.seen && e.vars.core.window == v.core.window && !th.pc.Publish?
            && !e.thread.pc.Publish? && (e.vars.mutex == v.mutex || (v.mutex == None && e.vars.mutex == Some(t)))
  {
    hide First;
  }

  /** What is ahead changes by what the thread at hand does. */
  lemma StepAhead(s: State, t: nat, choice: Choice)
    requires Inv(s) && t < |s.threads|
    ensures var e, n := Act(s.vars, s.threads[t], t, choice), Step(s, t, choice);
            && n.vars.core.seen != []
            && Ahead(n.vars, Publishing(n)) - Ahead(s.vars, Publishing(s))
               == Ahead(e.vars, PublishOf(e.thread)) - Ahead(s.vars, PublishOf(s.threads[t]))
  {
    hide Deal, Growing, Act, Shared, Quiet, Distinct, Loaded, Phase;
    var th, e := s.threads[t], Act(s.vars, s.threads[t], t, choice);
    assert Knows(s.vars, th, t);
    SeenStays(s.vars, th, t, choice);
    if th.locked {
      ActMutex(s.vars, th, t, choice);
      RoleKeeps(s.vars, th, t, choice);
    } else {
      UnlockedKeepsWindow(s.vars, th, t, choice);
    }
  }

  lemma SeenStays(v: Vars, th: Thread, t: nat, choice: Choice)
    requires v.core.seen != []
    ensures Act(v, th, t, choice).vars.core.seen != []
  {
    match th.pc
    case Free(_) =>
    case Read(_) => hide First;
    case Locked(_) =>
    case Publish(_) => hide Blocks;
  }

  lemma BasePast(s: State)
    requires Inv(s)
    ensures Even(s.vars.core.version) ==> s.vars.core.window.base <= s.vars.core.round
  {
    hide Inv;
    if Even(s.vars.core.version) {
      BaseIsPast(s);
    }
  }

  /** A call, the end of an iteration, and a look at an odd version, may add to the work. */
  predicate Excused(s: State, t: nat)
    requires t < |s.threads|
  {
    s.threads[t].pc == Free(Idle) || Spins(s.vars, s.threads[t])
  }

  lemma ExcusedChanges(v: Vars, th: Thread, t: nat, choice: Choice)
    requires v.core.seen != [] && (th.pc == Free(Idle) || Spins(v, th))
    ensures var e := Act(v, th, t, choice);
            e.vars.core == v.core && e.vars.log == v.log && e.vars.future == v.future && !e.thread.pc.Publish?
  {
    hide First;
  }

  /** Less ahead outweighs whatever the threads' ways become. */
  lemma LessAhead(s: State, n: State)
    requires s.vars.core.seen != [] && n.vars.core.seen != [] && |n.threads| == |s.threads| > 0
    requires Ahead(n.vars, Publishing(n)) < Ahead(s.vars, Publishing(s))
    ensures Work(n) < Work(s)
  {
    hide Ahead, Way, Publishing;
    var a, b, step := Ahead(n.vars, Publishing(n)), Ahead(s.vars, Publishing(s)), 100 * |s.threads|;
    SumAtMost(n.threads, Weigh(ViewOf(n.vars.core)), 66);
    hide Weigh, ViewOf;
    MulUp(a + 1, b, step);
    MulStep(a, step);
  }

  lemma SameAhead(s: State, n: State, t: nat)
    requires s.vars.core.seen != [] && n.vars.core.seen != [] && t < |s.threads|
    requires n.threads == s.threads[t := if t < |n.threads| then n.threads[t] else s.threads[t]]
    requires Ahead(n.vars, Publishing(n)) == Ahead(s.vars, Publishing(s)) && ViewOf(n.vars.core) == ViewOf(s.vars.core)
    ensures Work(n) == Work(s) - Way(ViewOf(s.vars.core), s.threads[t]) + Way(ViewOf(s.vars.core), n.threads[t])
  {
    hide Ahead, Way, Publishing, ViewOf;
    SumUpdate(s.threads, Weigh(ViewOf(s.vars.core)), t, n.threads[t]);
  }

  lemma StepIsOf(s: State, t: nat, choice: Choice)
    requires Inv(s) && t < |s.threads|
    ensures var n, e := Step(s, t, choice), Act(s.vars, s.threads[t], t, choice);
            && n.threads == s.threads[t := e.thread] && n.vars == e.vars && n.vars.core.seen != []
            && Shared(s.vars) && Knows(s.vars, s.threads[t], t)
            && (n != s ==> e != Effect(s.vars, s.threads[t]))
  {
    hide Act, Shared, Knows, Quiet, Distinct;
    SeenStays(s.vars, s.threads[t], t, choice);
    assert s.threads[t := s.threads[t]] == s.threads;
  }

  lemma StepShrinks(s: State, t: nat, choice: Choice)
    requires Inv(s) && t < |s.threads| && Step(s, t, choice) != s
    ensures Step(s, t, choice).vars.core.seen != []
    ensures Work(Step(s, t, choice)) < Work(s) + if Excused(s, t) then 100 else 0
  {
    BasePast(s);
    StepIsOf(s, t, choice);
    StepAhead(s, t, choice);
    hide Inv, Act, Step, Shared, Knows, Ahead, Way, Spins, ViewOf, Publishing, Work;
    var n, th := Step(s, t, choice), s.threads[t];
    if Excused(s, t) {
      ExcusedAhead(s.vars, th, t, choice);
      SameAhead(s, n, t);
    } else {
      ActGoesOn(s.vars, th, t, choice);
      if Ahead(n.vars, Publishing(n)) < Ahead(s.vars, Publishing(s)) {
        LessAhead(s, n);
      } else {
        SameAhead(s, n, t);
      }
    }
  }

  lemma ExcusedAhead(v: Vars, th: Thread, t: nat, choice: Choice)
    requires v.core.seen != [] && (th.pc == Free(Idle) || Spins(v, th))
    ensures var e := Act(v, th, t, choice);
            && e.vars.core == v.core && Ahead(e.vars, PublishOf(e.thread)) == Ahead(v, PublishOf(th))
  {
    hide Act, Deal, Spins;
    ExcusedChanges(v, th, t, choice);
    SpinsReads(v, th);
  }

  lemma SpinsReads(v: Vars, th: Thread)
    ensures Spins(v, th) ==> th.pc.Read?
  {
  }

  lemma WorkIsNat(s: State)
    requires Inv(s)
    ensures Work(s) >= 0
  {
    hide Growing, Quiet, Distinct, Versions, Settled, Closed, Finished;
    var c, v := s.vars.core, s.vars;
    DealPrefix(c.seen, v.future, c.rank.size);
    if v.log != [] {
      MulUp(0, |v.log| - 1, c.rank.workers);
      LogIsShort(v);
    }
    hide Deal, Dealt, Shared;
    MulUp(0, Ahead(v, Publishing(s)), 100 * |s.threads|);
  }

  lemma LogIsShort(v: Vars)
    requires v.core.seen != [] && Dealt(v.core.rank, v.core.seen, v.log) && v.log != []
    ensures |v.log| <= |Deal(v.core.seen, v.core.rank.size)|
  {
    hide Deal;
    var k := |v.log| - 1;
    assert Nth(v.core.rank, k) < |Deal(v.core.seen, v.core.rank.size)|;
    MulUp(1, v.core.rank.workers, k);
    assert k * v.core.rank.workers == v.core.rank.workers * k;
  }

  /** The steps of a run that change the state. */
  ghost predicate IsBusy(states: seq<State>, moves: seq<(nat, Choice)>)
    requires IsRun(states, moves)
  {
    forall i :: 0 <= i < |moves| ==> states[i + 1] != states[i]
  }

  /** How many of the first n steps were calls, ends of an iteration, and looks at an odd version. */
  ghost function ExcusedSteps(states: seq<State>, moves: seq<(nat, Choice)>, n: nat): nat
    requires IsRun(states, moves) && n <= |moves|
  {
    if n == 0 then 0
    else ExcusedSteps(states, moves, n - 1) + if Excused(states[n - 1], moves[n - 1].0) then 1 else 0
  }

  /** A run of any schedule is no longer than what there is to hand out, the number of calls, and how often threads
      look at a version that another one is changing, allow: threads never keep each other busy with retries. */
  lemma {:induction false} EveryRunEnds(states: seq<State>, moves: seq<(nat, Choice)>, n: nat)
    requires IsRun(states, moves) && IsBusy(states, moves) && Inv(states[0]) && n <= |moves|
    ensures Inv(states[n]) && Work(states[n]) >= 0
    ensures n + Work(states[n]) <= Work(states[0]) + 100 * ExcusedSteps(states, moves, n)
  {
    hide Inv, Work, Step, Excused;
    if n > 0 {
      var i := n - 1;
      EveryRunEnds(states, moves, i);
      assert IsStep(states[i], moves[i].0, moves[i].1, states[i + 1]) && states[i + 1] != states[i];
      StepInv(states[i], moves[i].0, moves[i].1);
      StepShrinks(states[i], moves[i].0, moves[i].1);
    }
    WorkIsNat(states[n]);
  }

  // ----- A call on its own

  /** No other thread is in the policy or holds a batch. */
  ghost predicate OthersRest(s: State, t: nat) {
    forall u :: 0 <= u < |s.threads| && u != t ==> s.threads[u].pc == Free(Idle) && !s.threads[u].holding
  }

  /** Then the thread neither waits nor finds the version odd. */
  lemma NoWaitAlone(s: State, t: nat)
    requires Inv(s) && t < |s.threads| && s.threads[t].pc != Free(Idle) && OthersRest(s, t)
    ensures !Waits(s.vars, s.threads[t]) && !Excused(s, t)
  {
    hide Deal, Growing, Shared, Quiet, Distinct, Loaded, Phase, Even;
    assert Knows(s.vars, s.threads[t], t);
    if s.vars.mutex.Some? {
      assert Knows(s.vars, s.threads[s.vars.mutex.value], s.vars.mutex.value);
    }
    if s.threads[t].pc == Locked(Drain) && s.vars.inFlight != 0 {
      CountZero(s.threads, Claims);
    }
    if Spins(s.vars, s.threads[t]) {
      OddIsPublishing(s);
    }
  }

  /** What the thread has of a call that began with these batches handed out. */
  predicate CallHas(log: seq<Batch>, v: Vars, th: Thread) {
    && (if th.pc != Free(Idle) then Calling(v, th) else th.holding || v.exhausted || v.departed)
    && v.log == log + if th.pc == Free(Idle) && th.holding then [th.batch] else []
  }

  ghost predicate CallStands(s: State, n: State, t: nat)
    requires t < |s.threads| && s.vars.core.seen != []
  {
    && Inv(n) && |n.threads| == |s.threads| && OthersRest(n, t) && CallHas(s.vars.log, n.vars, n.threads[t])
    && n.vars.core.seen + n.vars.future == s.vars.core.seen + s.vars.future && n.vars.core.rank == s.vars.core.rank
    && n.vars.departed == s.vars.departed
  }

  lemma CallBegins(s: State, t: nat)
    requires Inv(s) && t < |s.threads| && s.threads[t].pc == Free(Idle) && OthersRest(s, t)
    ensures s.vars.core.seen != []
    ensures var n := Step(s, t, CallNext);
            n.vars.core.seen != [] && CallStands(s, n, t) && n.threads[t].pc != Free(Idle)
  {
    StepInv(s, t, CallNext);
    CallEnters(s, t);
    hide Shared, Knows, Quiet, Distinct, Calling;
    var n := Step(s, t, CallNext);
    assert n.vars == s.vars;
  }

  lemma CallGoesOn(s: State, m: State, t: nat)
    requires t < |s.threads| && s.vars.core.seen != [] && CallStands(s, m, t) && m.threads[t].pc != Free(Idle)
    ensures m.vars.core.seen != []
    ensures var n := Step(m, t, CallNext);
            n.vars.core.seen != [] && CallStands(s, n, t) && 0 <= Work(n) < Work(m)
  {
    StepIsOf(m, t, CallNext);
    CallWorks(m, t);
    StepInv(m, t, CallNext);
    CallHasNext(s.vars.log, m, t);
    hide Inv, Act, Shared, Knows, Work, CallHas;
  }

  lemma CallHasNext(log: seq<Batch>, m: State, t: nat)
    requires Inv(m) && t < |m.threads| && CallHas(log, m.vars, m.threads[t]) && m.threads[t].pc != Free(Idle)
    ensures var e := Act(m.vars, m.threads[t], t, CallNext);
            CallHas(log, e.vars, e.thread) && e.vars.departed == m.vars.departed
  {
    CallReceives(m, t);
    ActCalls(m.vars, m.threads[t], t, CallNext);
    hide Inv, Act, Calling;
  }

  lemma CallWorks(m: State, t: nat)
    requires Inv(m) && t < |m.threads| && m.threads[t].pc != Free(Idle) && OthersRest(m, t)
    ensures m.vars.core.seen != []
    ensures var n := Step(m, t, CallNext); n.vars.core.seen != [] && 0 <= Work(n) < Work(m)
  {
    NoWaitAlone(m, t);
    StepIsOf(m, t, CallNext);
    hide Shared, Knows, Quiet, Distinct, Act, Work, Waits, Excused;
    ActMoves(m.vars, m.threads[t], t);
    StepShrinks(m, t, CallNext);
    StepInv(m, t, CallNext);
    WorkIsNat(Step(m, t, CallNext));
  }

  /** A step inside of a call claims a batch exactly when it comes back with one. */
  lemma CallReceives(m: State, t: nat)
    requires Inv(m) && t < |m.threads| && Calling(m.vars, m.threads[t])
    ensures var e := Act(m.vars, m.threads[t], t, CallNext);
            e.vars.log == m.vars.log + if e.thread.pc == Free(Idle) && e.thread.holding then [e.thread.batch] else []
  {
    RoundIsLog(m.vars);
    assert Knows(m.vars, m.threads[t], t);
    hide Shared, Act, Knows, Loaded, Phase, Quiet, Distinct;
    ActReceives(m.vars, m.threads[t], t, CallNext);
    SwapsComesBack(m.vars, m.threads[t], t);
  }

  lemma SwapsComesBack(v: Vars, th: Thread, t: nat)
    requires v.core.seen != [] && Calling(v, th)
    ensures var e := Act(v, th, t, CallNext).thread;
            (Swaps(v, th) ==> e.pc == Free(Idle) && e.holding) && (th.pc == Free(Release) ==> e.pc != Free(Idle))
  {
    hide First, Blocks;
  }

  /** What a call that came back received. */
  lemma CallResult(s: State, n: State, t: nat)
    requires t < |s.threads| && s.vars.core.seen != [] && CallStands(s, n, t) && n.threads[t].pc == Free(Idle)
    ensures var all, k := Deal(s.vars.core.seen + s.vars.future, s.vars.core.rank.size), Nth(s.vars.core.rank, |s.vars.log|);
            if !s.vars.departed && k < |all| then n.threads[t].holding && n.threads[t].batch == all[k]
            else !n.threads[t].holding && (n.vars.exhausted || n.vars.departed)
  {
    hide Deal, Growing, Versions, Settled, Closed, Quiet, Distinct, OthersRest, Loaded, Role, Phase, Nth;
    DealPrefix(n.vars.core.seen, n.vars.future, n.vars.core.rank.size);
    assert n.vars.exhausted ==> n.vars.core.seen + n.vars.future == n.vars.core.seen;
    if n.threads[t].holding {
      assert n.vars.log[|s.vars.log|] == n.threads[t].batch;
      HolderHasNotDeparted(n, t);
    }
  }

  lemma HolderHasNotDeparted(s: State, t: nat)
    requires Inv(s) && t < |s.threads| && s.threads[t].holding
    ensures !s.vars.departed
  {
    hide Inv;
    if s.vars.departed {
      DepartedIsFinal(s, t, CallNext);
    }
  }

  /** A call while no other thread of the rank is in the policy or holds a batch comes back: with the rank's next
      block if there is one and the rank has not departed, and otherwise without a batch. */
  lemma CallAlone(s: State, t: nat) returns (states: seq<State>, moves: seq<(nat, Choice)>)
    requires Inv(s) && t < |s.threads| && s.threads[t].pc == Free(Idle) && OthersRest(s, t)
    ensures IsRun(states, moves) && states[0] == s && forall i :: 0 <= i < |moves| ==> moves[i] == (t, CallNext)
    ensures s.vars.core.seen != []
    ensures var n := states[|moves|];
            var all, k := Deal(s.vars.core.seen + s.vars.future, s.vars.core.rank.size), Nth(s.vars.core.rank, |s.vars.log|);
            && t < |n.threads| && n.threads[t].pc == Free(Idle)
            && if !s.vars.departed && k < |all|
               then n.threads[t].holding && n.threads[t].batch == all[k] && n.vars.log == s.vars.log + [all[k]]
               else !n.threads[t].holding && (n.vars.exhausted || n.vars.departed) && n.vars.log == s.vars.log
  {
    hide Deal, Inv, Step, OthersRest, Work, Nth;
    CallBegins(s, t);
    states, moves := [s, Step(s, t, CallNext)], [(t, CallNext)];
    WorkIsNat(states[1]);
    while states[|moves|].threads[t].pc != Free(Idle)
      invariant IsRun(states, moves) && states[0] == s && forall i :: 0 <= i < |moves| ==> moves[i] == (t, CallNext)
      invariant CallStands(s, states[|moves|], t)
      invariant states[|moves|].vars.core.seen != [] && Work(states[|moves|]) >= 0
      decreases Work(states[|moves|])
    {
      var m := states[|moves|];
      CallGoesOn(s, m, t);
      states, moves := states + [Step(m, t, CallNext)], moves + [(t, CallNext)];
    }
    CallResult(s, states[|moves|], t);
  }

  // ----- Leaving on its own

  /** How far a thread that ends its iteration is from having left. */
  function WayOut(pc: Pc): nat {
    match pc
    case Free(free) => if free.LeaveLock? then 6 else 0
    case Locked(locked) => (
      match locked
      case LeaveCount => 5
      case LeaveCheck => 4
      case LeaveCheckDeparted => 3
      case LeaveDepart => 2
      case _ => 1)
    case _ => 1
  }

  /** What a thread has of the end of an iteration that began with so many threads taking part. */
  predicate EndHas(active: int, v: Vars, th: Thread) {
    && !th.participating && !th.holding
    && (Leaving(th.pc) || th.pc == Locked(UnlockLeave) || th.pc == Free(Idle))
    && v.activeUnits == active - (if th.pc == Free(LeaveLock) || th.pc == Locked(LeaveCount) then 0 else 1)
    && (v.activeUnits == 0 && !Leaving(th.pc) ==> v.departed || v.exhausted)
  }

  ghost predicate EndStands(s: State, n: State, t: nat)
    requires t < |s.threads|
  {
    && Inv(n) && |n.threads| == |s.threads| && OthersRest(n, t) && n.vars.log == s.vars.log
    && EndHas(s.vars.activeUnits, n.vars, n.threads[t])
  }

  lemma EndBegins(s: State, t: nat)
    requires Inv(s) && t < |s.threads| && s.threads[t].pc == Free(Idle) && s.threads[t].participating && OthersRest(s, t)
    ensures s.vars.core.seen != [] && EndStands(s, Step(s, t, EndIteration), t)
    ensures Step(s, t, EndIteration).threads[t].pc == Free(LeaveLock)
  {
    StepInv(s, t, EndIteration);
    hide Shared, Knows, Quiet, Distinct;
  }

  lemma EndGoesOn(s: State, m: State, t: nat)
    requires t < |s.threads| && EndStands(s, m, t) && m.threads[t].pc != Free(Idle)
    ensures m.vars.core.seen != []
    ensures var n := Step(m, t, EndIteration);
            EndStands(s, n, t) && WayOut(n.threads[t].pc) < WayOut(m.threads[t].pc)
  {
    StepInv(m, t, EndIteration);
    StepIsOf(m, t, EndIteration);
    LeaverMoves(m, t);
    hide Shared, Knows, Quiet, Distinct, EndHas, WayOut, Act;
    ActEnds(s.vars.activeUnits, m.vars, m.threads[t], t);
  }

  lemma ActEnds(active: int, v: Vars, th: Thread, t: nat)
    requires v.core.seen != [] && EndHas(active, v, th) && th.pc != Free(Idle)
    requires th.pc == Free(LeaveLock) ==> v.mutex.None?
    requires IsLastLeaver(th) ==> v.activeUnits == 0
    ensures var e := Act(v, th, t, EndIteration);
            EndHas(active, e.vars, e.thread) && WayOut(e.thread.pc) < WayOut(th.pc) && e.vars.log == v.log
  {
    match th.pc
    case Free(_) =>
    case Read(_) => hide First;
    case Locked(_) =>
    case Publish(_) => hide Blocks;
  }

  /** A thread that leaves does not find the mutex taken when the others rest, and knows what it counted. */
  lemma LeaverMoves(m: State, t: nat)
    requires Inv(m) && t < |m.threads| && OthersRest(m, t)
    ensures m.threads[t].pc == Free(LeaveLock) ==> m.vars.mutex.None?
    ensures IsLastLeaver(m.threads[t]) ==> m.vars.activeUnits == 0
  {
    hide Deal, Growing, Shared, Quiet, Distinct, Loaded, Phase;
    assert Knows(m.vars, m.threads[t], t);
    if m.vars.mutex.Some? {
      assert Knows(m.vars, m.threads[m.vars.mutex.value], m.vars.mutex.value);
    }
  }

  /** A thread that ends its iteration while the others rest has left, and counted itself out; and if it was the last
      one, the rank is departed, unless it is exhausted. */
  lemma EndAlone(s: State, t: nat) returns (states: seq<State>, moves: seq<(nat, Choice)>)
    requires Inv(s) && t < |s.threads| && s.threads[t].pc == Free(Idle) && s.threads[t].participating && OthersRest(s, t)
    ensures IsRun(states, moves) && states[0] == s && forall i :: 0 <= i < |moves| ==> moves[i] == (t, EndIteration)
    ensures var n := states[|moves|];
            && t < |n.threads| && n.threads[t].pc == Free(Idle) && !n.threads[t].participating && !n.threads[t].holding
            && n.vars.log == s.vars.log && n.vars.activeUnits == s.vars.activeUnits - 1
            && (n.vars.activeUnits == 0 ==> n.vars.departed || n.vars.exhausted)
  {
    hide Inv, Step, OthersRest;
    EndBegins(s, t);
    states, moves := [s, Step(s, t, EndIteration)], [(t, EndIteration)];
    while states[|moves|].threads[t].pc != Free(Idle)
      invariant IsRun(states, moves) && states[0] == s && forall i :: 0 <= i < |moves| ==> moves[i] == (t, EndIteration)
      invariant EndStands(s, states[|moves|], t)
      decreases WayOut(states[|moves|].threads[t].pc)
    {
      var m := states[|moves|];
      EndGoesOn(s, m, t);
      states, moves := states + [Step(m, t, EndIteration)], moves + [(t, EndIteration)];
    }
  }

  // ----- The trigger is asked until it has nothing more

  /** On the way to the trigger, past the question whether the rank is exhausted. */
  predicate OnTheWay(th: Thread) {
    th.locked && (th.pc.Read? || th.pc.Publish? || th.pc == Locked(CompareCapacity) || th.pc == Locked(Drain)
                  || th.pc == Locked(Reindex) || th.pc == Locked(StoreExhausted))
  }

  ghost predicate NotYet(s: State) {
    forall t :: 0 <= t < |s.threads| && OnTheWay(s.threads[t]) ==> !s.vars.exhausted
  }

  lemma ActNotYet(v: Vars, th: Thread, t: nat, choice: Choice)
    requires v.core.seen != [] && Role(v, th, t) && (OnTheWay(th) ==> !v.exhausted)
    ensures var e := Act(v, th, t, choice);
            && (OnTheWay(e.thread) ==> !e.vars.exhausted)
            && (e.vars.exhausted && !v.exhausted ==> th.pc == Locked(StoreExhausted) && th.locked)
  {
    match th.pc
    case Free(_) =>
    case Read(_) => hide First;
    case Locked(_) =>
    case Publish(_) => hide Blocks;
  }

  /** The trigger does not run once the rank is exhausted. */
  lemma StepNotYet(s: State, t: nat, choice: Choice)
    requires Inv(s) && t < |s.threads| && NotYet(s)
    ensures NotYet(Step(s, t, choice))
  {
    hide Deal, Growing, Act, Shared, Quiet, Distinct, Loaded, Phase;
    var n := Step(s, t, choice);
    assert Knows(s.vars, s.threads[t], t);
    ActNotYet(s.vars, s.threads[t], t, choice);
    forall u | 0 <= u < |n.threads| && OnTheWay(n.threads[u])
      ensures !n.vars.exhausted
    {
      assert Knows(s.vars, s.threads[u], u);
    }
  }

  lemma {:induction false} TriggersBeforeExhausted(s: State, rank: Rank, caps: seq<nat>, steps: nat)
    requires caps != [] && Growing(caps) && rank.worker < rank.workers && Reachable(s, rank, caps, steps)
    ensures NotYet(s)
    decreases steps
  {
    hide Inv, Step, Growing;
    if steps > 0 {
      var before: State, t: nat, choice: Choice :| IsStep(before, t, choice, s) && Reachable(before, rank, caps, steps - 1);
      ReachableInv(before, rank, caps, steps - 1);
      TriggersBeforeExhausted(before, rank, caps, steps - 1);
      if t < |before.threads| {
        StepNotYet(before, t, choice);
      } else {
        NoStep(before, t, choice);
      }
    }
  }

  lemma NoStep(s: State, t: nat, choice: Choice)
    requires s.vars.core.seen != [] && t >= |s.threads|
    ensures Step(s, t, choice) == s
  {
  }
}
