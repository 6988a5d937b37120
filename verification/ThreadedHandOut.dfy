/** The threaded policy: threads of one process claim batches from a shared counter, and whoever
    finds the capacity used up reindexes once everything handed out has come back. Every step of the
    model makes one access to one shared variable; the threads interleave in any way. */
module ThreadedHandOut {
  import opened Common
  import opened Counting
  import opened Dealing
  import opened Reindexing
  import opened SerialHandOut

  /** What a thread does next. */
  datatype Pc =
    | Idle             // outside of the policy, possibly holding a batch
    | Release          // return the held batch
    | LoadIndex
    | CheckExhausted   // the head of the outer loop
    | LoadCapacity
    | Lock
    | CheckLocked      // exhausted, asked again under the mutex
    | CompareCapacity
    | Publish
    | ReloadIndex
    | ReloadCapacity
    | Drain            // wait for everything handed out
    | Reindex          // the trigger runs
    | StoreExhausted
    | LeaveExhausted
    | StoreCapacity
    | Unlock
    | Claim
    | Try              // compare and exchange
    | TryCapacity

  datatype Thread = Thread(pc: Pc, current: nat, cap: nat, holding: bool, batch: Batch, place: nat)

  /** What the threads share. */
  datatype Vars = Vars(
    size: Size,
    eventIdx: nat,
    sharedCapacity: nat,
    inFlight: int,
    exhausted: bool,
    mutex: Option<nat>,
    seen: seq<nat>,     // the capacities that the trigger reached, the last one current
    future: seq<nat>,   // the capacities that it will reach
    log: seq<Batch>)    // the batches in the order of their claims

  datatype State = State(vars: Vars, threads: seq<Thread>)

  /** What the model leaves open: what an idle thread does, and whether a weak exchange fails for no reason. */
  datatype Choice = CallNext | EndIteration | Spurious

  function Capacity(v: Vars): nat
    requires v.seen != []
  {
    v.seen[|v.seen| - 1]
  }

  datatype Effect = Effect(vars: Vars, thread: Thread)

  /** One access of thread t to the shared variables. */
  function Act(v: Vars, th: Thread, t: nat, choice: Choice): Effect
    requires v.seen != []
  {
    match th.pc
    case Idle =>
      if choice.CallNext? then Effect(v, th.(pc := if th.holding then Release else LoadIndex))
      else if choice.EndIteration? && th.holding then Effect(v.(inFlight := v.inFlight - 1), th.(holding := false))
      else Effect(v, th)
    case Release => Effect(v.(inFlight := v.inFlight - 1), th.(pc := LoadIndex, holding := false))
    case LoadIndex => Effect(v, th.(pc := CheckExhausted, current := v.eventIdx))
    case CheckExhausted => Effect(v, th.(pc := if v.exhausted then Idle else LoadCapacity))
    case LoadCapacity =>
      Effect(v, th.(pc := if th.current >= v.sharedCapacity then Lock else Claim, cap := v.sharedCapacity))
    case Lock => if v.mutex.None? then Effect(v.(mutex := Some(t)), th.(pc := CheckLocked)) else Effect(v, th)
    case CheckLocked => Effect(v, th.(pc := if v.exhausted then LeaveExhausted else CompareCapacity))
    case CompareCapacity => Effect(v, th.(pc := if v.sharedCapacity != Capacity(v) then Publish else ReloadIndex))
    case Publish => Effect(v.(sharedCapacity := Capacity(v)), th.(pc := ReloadIndex))
    case ReloadIndex => Effect(v, th.(pc := ReloadCapacity, current := v.eventIdx))
    case ReloadCapacity =>
      Effect(v, th.(pc := if th.current >= v.sharedCapacity then Drain else Unlock, cap := v.sharedCapacity))
    case Drain => if v.inFlight != 0 then Effect(v, th) else Effect(v, th.(pc := Reindex))
    case Reindex =>
      if v.future == [] then Effect(v, th.(pc := StoreExhausted))
      else Effect(v.(seen := v.seen + [v.future[0]], future := v.future[1..]), th.(pc := StoreCapacity))
    case StoreExhausted => Effect(v.(exhausted := true), th.(pc := LeaveExhausted))
    case LeaveExhausted => Effect(v.(mutex := None), th.(pc := Idle))
    case StoreCapacity => Effect(v.(sharedCapacity := Capacity(v)), th.(pc := Unlock, cap := Capacity(v)))
    case Unlock => Effect(v.(mutex := None), th.(pc := Claim))
    case Claim => Effect(v.(inFlight := v.inFlight + 1), th.(pc := Try))
    case Try =>
      if th.current >= th.cap then Effect(v.(inFlight := v.inFlight - 1), th.(pc := CheckExhausted))
      else if v.eventIdx == th.current && !choice.Spurious? then
        var remaining := th.cap - th.current;
        var count := if v.size < remaining then v.size else remaining;
        var batch := Batch(th.current, th.current + count);
        Effect(v.(eventIdx := th.current + count, log := v.log + [batch]),
               th.(pc := Idle, holding := true, batch := batch, place := |v.log|))
      else Effect(v, th.(pc := TryCapacity, current := v.eventIdx))
    case TryCapacity => Effect(v, th.(pc := Try, cap := v.sharedCapacity))
  }

  function Step(s: State, t: nat, choice: Choice): State
    requires s.vars.seen != []
  {
    if t >= |s.threads| then s
    else
      var e := Act(s.vars, s.threads[t], t, choice);
      State(e.vars, s.threads[t := e.thread])
  }

  function Start(size: Size, threads: nat, capacity: nat, future: seq<nat>): State {
    State(Vars(size, 0, 0, 0, false, None, [capacity], future, []),
          seq(threads, _ => Thread(Idle, 0, 0, false, Batch(0, 0), 0)))
  }

  // ----- What every step keeps

  predicate InMutex(pc: Pc) {
    pc.CheckLocked? || pc.CompareCapacity? || pc.Publish? || pc.ReloadIndex? || pc.ReloadCapacity? || pc.Drain?
    || pc.Reindex? || pc.StoreExhausted? || pc.LeaveExhausted? || pc.StoreCapacity? || pc.Unlock?
  }

  /** Between the check that nothing is in flight and the new capacity. */
  predicate InReindex(pc: Pc) {
    pc.Reindex? || pc.StoreExhausted? || pc.StoreCapacity?
  }

  predicate Claims(th: Thread) {
    th.holding || th.pc.Try? || th.pc.TryCapacity?
  }

  ghost predicate Shared(v: Vars) {
    && v.seen != [] && Growing(v.seen + v.future)
    && At(v.seen, v.size, v.eventIdx, |v.log|) && v.log <= Deal(v.seen, v.size)
    && v.eventIdx <= v.sharedCapacity <= Capacity(v)
    && (v.sharedCapacity != Capacity(v) ==> v.eventIdx == v.sharedCapacity)
    && (v.exhausted ==> v.future == [] && v.eventIdx == Capacity(v))
  }

  /** What a thread knows, from what it loaded and where it is. */
  predicate Local(v: Vars, th: Thread, t: nat)
    requires v.seen != []
  {
    && th.current <= v.eventIdx
    && th.cap <= v.sharedCapacity && (th.cap == v.sharedCapacity || th.cap <= v.eventIdx)
    && (InMutex(th.pc) <==> v.mutex == Some(t))
    && (th.holding ==> th.pc.Idle? || th.pc.Release?)
    && (th.pc.Release? ==> th.holding)
    && (th.holding ==> th.place < |v.log| && v.log[th.place] == th.batch)
    && (InMutex(th.pc) && !th.pc.CheckLocked? && !th.pc.LeaveExhausted? ==> !v.exhausted)
    && (th.pc.ReloadIndex? || th.pc.ReloadCapacity? || th.pc.Drain? || th.pc.Reindex? || th.pc.StoreExhausted? ==>
        v.sharedCapacity == Capacity(v))
    && (th.pc.Drain? || InReindex(th.pc) ==> v.eventIdx == v.sharedCapacity)
    && (th.pc.StoreExhausted? ==> v.future == [])
    && (th.pc.LeaveExhausted? ==> v.exhausted)
  }

  ghost predicate Locals(s: State)
    requires s.vars.seen != []
  {
    forall t :: 0 <= t < |s.threads| ==> Local(s.vars, s.threads[t], t)
  }

  /** While a thread reindexes nobody holds a batch. */
  ghost predicate Quiet(s: State) {
    forall t, u :: 0 <= t < |s.threads| && 0 <= u < |s.threads| && InReindex(s.threads[t].pc) ==> !s.threads[u].holding
  }

  /** Held batches are different claims. */
  ghost predicate Distinct(s: State) {
    forall t, u :: 0 <= t < u < |s.threads| && s.threads[t].holding && s.threads[u].holding ==>
      s.threads[t].place != s.threads[u].place
  }

  ghost predicate Inv(s: State) {
    && s.vars.seen != [] && Shared(s.vars) && Locals(s) && Quiet(s) && Distinct(s)
    && s.vars.inFlight == CountIf(s.threads, Claims)
    && (s.vars.mutex.Some? ==> s.vars.mutex.value < |s.threads|)
  }

  lemma {:induction false} StartInv(size: Size, threads: nat, capacity: nat, future: seq<nat>)
    requires Growing([capacity] + future)
    ensures Inv(Start(size, threads, capacity, future))
  {
    var s := Start(size, threads, capacity, future);
    AtStart(s.vars.seen, size);
    CountZero(s.threads, Claims);
  }

  lemma ActShared(v: Vars, th: Thread, t: nat, choice: Choice)
    requires Shared(v) && Local(v, th, t)
    ensures var n := Act(v, th, t, choice).vars; Shared(n) && n.seen + n.future == v.seen + v.future && n.size == v.size
  {
    hide Deal, Growing, At;
    match th.pc
    case Reindex => ReindexShared(v, th, t, choice);
    case Try =>
      GrowingPrefix(v.seen, v.future);
      AtNext(v.seen, v.size, v.eventIdx, |v.log|);
    case Publish =>
    case StoreCapacity =>
    case StoreExhausted =>
    case _ =>
  }

  lemma ReindexShared(v: Vars, th: Thread, t: nat, choice: Choice)
    requires Shared(v) && Local(v, th, t) && th.pc.Reindex?
    ensures var n := Act(v, th, t, choice).vars; Shared(n) && n.seen + n.future == v.seen + v.future && n.size == v.size
  {
    hide Deal, Growing, At;
    if v.future != [] {
      var seen := v.seen + [v.future[0]];
      assert seen + v.future[1..] == v.seen + v.future;
      GrowingPrefix(seen, v.future[1..]);
      AtNewWindow(v.seen, v.size, v.eventIdx, |v.log|, v.future[0]);
      DealPrefix(v.seen, [v.future[0]], v.size);
      AtNext(seen, v.size, v.eventIdx, |v.log|);
    }
  }

  lemma ActLocal(v: Vars, th: Thread, t: nat, choice: Choice)
    requires Shared(v) && Local(v, th, t)
    ensures var e := Act(v, th, t, choice);
            && Shared(e.vars) && Local(e.vars, e.thread, t) && e.vars.seen != []
            && e.vars.seen + e.vars.future == v.seen + v.future && e.vars.size == v.size
  {
    hide Deal, Growing, At;
    ActShared(v, th, t, choice);
    if InMutex(th.pc) {
      LockedLocal(v, th, t, choice);
    }
  }

  lemma LockedLocal(v: Vars, th: Thread, t: nat, choice: Choice)
    requires Shared(v) && Local(v, th, t) && InMutex(th.pc)
    ensures var e := Act(v, th, t, choice); e.vars.seen != [] && Local(e.vars, e.thread, t)
  {
    hide Deal, Growing, At;
  }

  lemma ActOther(v: Vars, th: Thread, t: nat, choice: Choice, other: Thread, u: nat)
    requires Shared(v) && Local(v, th, t) && Local(v, other, u) && t != u
    ensures Shared(v) && Local(Act(v, th, t, choice).vars, other, u)
  {
    hide Deal, Growing, At;
    ActShared(v, th, t, choice);
  }

  /** What an action changes about claims: a batch is only received below the shared capacity, and
      reindexing only begins when nothing is in flight. */
  lemma ActClaims(v: Vars, th: Thread, t: nat, choice: Choice)
    requires Shared(v) && Local(v, th, t)
    ensures var e := Act(v, th, t, choice);
            && v.log <= e.vars.log && (e.vars.mutex == v.mutex || e.vars.mutex == None || e.vars.mutex == Some(t))
            && e.vars.inFlight == v.inFlight - (if Claims(th) then 1 else 0) + (if Claims(e.thread) then 1 else 0)
            && (e.vars.log != v.log || (e.thread.holding && !th.holding) ==>
                  v.eventIdx < v.sharedCapacity && !th.holding && e.thread.holding && e.thread.place == |v.log|
                  && e.vars.log == v.log + [e.thread.batch])
            && (e.thread.holding && th.holding ==> e.thread.place == th.place)
            && (InReindex(e.thread.pc) && !InReindex(th.pc) ==> v.inFlight == 0)
            && (InReindex(e.thread.pc) ==> e.thread.holding == th.holding)
  {
    hide Deal, Growing, At;
  }

  lemma StepInv(s: State, t: nat, choice: Choice)
    requires Inv(s)
    ensures Inv(Step(s, t, choice))
    ensures var n := Step(s, t, choice).vars; n.seen + n.future == s.vars.seen + s.vars.future && n.size == s.vars.size
  {
    hide Deal, Growing, At, Act, Shared, Local;
    if t < |s.threads| {
      var th := s.threads[t];
      var n := Step(s, t, choice);
      assert Local(s.vars, th, t);
      ActLocal(s.vars, th, t, choice);
      ActClaims(s.vars, th, t, choice);
      CountUpdate(s.threads, Claims, t, n.threads[t]);
      StepQuiet(s, t, choice);
      StepDistinct(s, t, choice);
      forall u | 0 <= u < |s.threads|
        ensures Local(n.vars, n.threads[u], u)
      {
        if u != t {
          ActOther(s.vars, th, t, choice, s.threads[u], u);
        }
      }
    }
  }

  lemma StepQuiet(s: State, t: nat, choice: Choice)
    requires Inv(s)
    ensures Quiet(Step(s, t, choice))
  {
    hide Deal, Growing, At, Act, Shared, Distinct;
    if t < |s.threads| {
      var n := Step(s, t, choice);
      CountZero(s.threads, Claims);
      assert Local(s.vars, s.threads[t], t);
      ActClaims(s.vars, s.threads[t], t, choice);
      forall r, u | 0 <= r < |n.threads| && 0 <= u < |n.threads| && InReindex(n.threads[r].pc)
        ensures !n.threads[u].holding
      {
        assert Local(s.vars, s.threads[r], r);
      }
    }
  }

  lemma StepDistinct(s: State, t: nat, choice: Choice)
    requires Inv(s)
    ensures Distinct(Step(s, t, choice))
  {
    hide Deal, Growing, At, Act, Shared, Quiet;
    if t < |s.threads| {
      var n := Step(s, t, choice);
      assert Local(s.vars, s.threads[t], t);
      ActClaims(s.vars, s.threads[t], t, choice);
      forall r, u | 0 <= r < u < |n.threads| && n.threads[r].holding && n.threads[u].holding
        ensures n.threads[r].place != n.threads[u].place
      {
        assert Local(s.vars, s.threads[r], r) && Local(s.vars, s.threads[u], u);
      }
    }
  }

  // ----- Whole runs

  ghost predicate Caps(s: State, size: Size, caps: seq<nat>) {
    s.vars.seen + s.vars.future == caps && s.vars.size == size
  }

  /** The states that some schedule of the threads leads to. */
  ghost predicate Reachable(s: State, size: Size, caps: seq<nat>, steps: nat)
    requires caps != []
    decreases steps
  {
    if steps == 0 then exists threads: nat :: s == Start(size, threads, caps[0], caps[1..])
    else exists before: State, t: nat, choice: Choice ::
        IsStep(before, t, choice, s) && Reachable(before, size, caps, steps - 1)
  }

  predicate IsStep(s: State, t: nat, choice: Choice, next: State) {
    s.vars.seen != [] && next == Step(s, t, choice)
  }

  lemma {:induction false} ReachableInv(s: State, size: Size, caps: seq<nat>, steps: nat)
    requires caps != [] && Growing(caps) && Reachable(s, size, caps, steps)
    ensures Inv(s) && Caps(s, size, caps)
    decreases steps
  {
    hide Inv, Step, Growing;
    if steps == 0 {
      var threads: nat :| s == Start(size, threads, caps[0], caps[1..]);
      assert [caps[0]] + caps[1..] == caps;
      StartInv(size, threads, caps[0], caps[1..]);
    } else {
      var before: State, t: nat, choice: Choice :| IsStep(before, t, choice, s) && Reachable(before, size, caps, steps - 1);
      ReachableInv(before, size, caps, steps - 1);
      StepInv(before, t, choice);
    }
  }

  /** In every reachable state the batches handed out are the first blocks of the deal, end to end from
      0 to the counter; the counter is within the shared capacity; what is in flight is what is held or
      being claimed; held batches are different blocks; and exhausted means that all were handed out. */
  lemma {:induction false} HandedOutInOrder(s: State, size: Size, caps: seq<nat>, steps: nat)
    requires caps != [] && Growing(caps) && Reachable(s, size, caps, steps)
    ensures s.vars.log <= Deal(caps, size) && Contiguous(s.vars.log, s.vars.eventIdx)
    ensures s.vars.eventIdx <= s.vars.sharedCapacity
    ensures s.vars.inFlight == CountIf(s.threads, Claims)
    ensures forall t :: 0 <= t < |s.threads| && s.threads[t].holding ==>
              s.threads[t].place < |s.vars.log| && s.vars.log[s.threads[t].place] == s.threads[t].batch
    ensures Distinct(s) && Quiet(s)
    ensures s.vars.exhausted ==> s.vars.log == Deal(caps, size)
  {
    hide Deal, Growing, At, Reachable, Contiguous;
    ReachableInv(s, size, caps, steps);
    GrowingPrefix(s.vars.seen, s.vars.future);
    AtContiguous(s.vars.seen, size, s.vars.eventIdx, |s.vars.log|);
    AtNext(s.vars.seen, size, s.vars.eventIdx, |s.vars.log|);
    DealPrefix(s.vars.seen, s.vars.future, size);
    assert s.vars.future == [] ==> s.vars.seen == caps;
    assert s.vars.log == Deal(s.vars.seen, size)[..|s.vars.log|];
    forall t | 0 <= t < |s.threads| && s.threads[t].holding
      ensures s.threads[t].place < |s.vars.log| && s.vars.log[s.threads[t].place] == s.threads[t].batch
    {
      assert Local(s.vars, s.threads[t], t);
    }
  }

  /** From the check that nothing is in flight until the new capacity is stored, no step of any thread
      hands out anything. */
  lemma NoClaimWhileReindexing(s: State, t: nat, u: nat, choice: Choice)
    requires Inv(s) && t < |s.threads| && InReindex(s.threads[t].pc)
    ensures var n := Step(s, u, choice); n.vars.log == s.vars.log && forall w :: 0 <= w < |n.threads| ==>
        !n.threads[w].holding
  {
    hide Deal, Growing, At, Act, Shared, Distinct;
    if u < |s.threads| {
      assert Local(s.vars, s.threads[t], t) && Local(s.vars, s.threads[u], u);
      ActClaims(s.vars, s.threads[u], u, choice);
    }
  }

  /** The serial policy hands out the same batches exactly when no capacity grows after a first stall. */
  lemma {:induction false} SameAsSerial(s: State, size: Size, caps: seq<nat>, steps: nat, run: seq<nat>)
    requires caps != [] && Growing(caps) && Reachable(s, size, caps, steps) && s.vars.exhausted
    requires run != [] && IsFirstRun(run, caps)
    ensures s.vars.log == Deal(run, size) <==> run[|run| - 1] == caps[|caps| - 1]
  {
    HandedOutInOrder(s, size, caps, steps);
    FirstRunIsAll(caps, run, size);
  }

  /** A trigger that returns true without more steps ends a serial iteration early. */
  lemma SerialStopsAtStall()
    ensures IsFirstRun([1, 1], [1, 1, 2]) && Deal([1, 1], 1) != Deal([1, 1, 2], 1)
  {
    FirstRunIsAll([1, 1, 2], [1, 1], 1);
  }

  /** A thread that waits for batches to come back never waits for itself. */
  lemma DrainWaitsForOthers(s: State, t: nat)
    requires Inv(s) && t < |s.threads| && s.threads[t].pc.Drain? && s.vars.inFlight != 0
    ensures exists u :: 0 <= u < |s.threads| && u != t && Claims(s.threads[u])
  {
    CountZero(s.threads, Claims);
    assert Local(s.vars, s.threads[t], t);
  }

  predicate Waits(v: Vars, th: Thread) {
    th.pc.Idle? || (th.pc.Lock? && v.mutex.Some?) || (th.pc.Drain? && v.inFlight != 0)
  }

  lemma ActMoves(v: Vars, th: Thread, t: nat)
    requires v.seen != [] && !Waits(v, th)
    ensures Act(v, th, t, CallNext).thread.pc != th.pc
  {
  }

  // ----- What a call returns

  /** A thread comes back without a batch only when everything was handed out. */
  lemma EmptyOnlyExhausted(s: State, t: nat, choice: Choice)
    requires Inv(s) && t < |s.threads| && !s.threads[t].pc.Idle?
    requires var th := Step(s, t, choice).threads[t]; th.pc.Idle? && !th.holding
    ensures s.vars.exhausted && Step(s, t, choice).vars.exhausted
  {
    hide Deal, Growing, At, Shared, Distinct, Quiet;
    assert Local(s.vars, s.threads[t], t);
  }

  /** So once a call came back without a batch, the threads received all blocks of the deal. */
  lemma {:induction false} EmptyMeansAll(s: State, size: Size, caps: seq<nat>, steps: nat, t: nat, choice: Choice)
    requires caps != [] && Growing(caps) && Reachable(s, size, caps, steps) && t < |s.threads| && !s.threads[t].pc.Idle?
    requires s.vars.seen != [] && var th := Step(s, t, choice).threads[t]; th.pc.Idle? && !th.holding
    ensures s.vars.log == Deal(caps, size)
  {
    hide Deal, Growing, Reachable, Step;
    ReachableInv(s, size, caps, steps);
    EmptyOnlyExhausted(s, t, choice);
    HandedOutInOrder(s, size, caps, steps);
  }

  /** Once no batch is held, a thread in the policy can go on: the protocol does not block itself. */
  lemma NoDeadlock(s: State, t: nat) returns (u: nat)
    requires Inv(s) && t < |s.threads| && !s.threads[t].pc.Idle? && forall w :: 0 <= w < |s.threads| ==>
        !s.threads[w].holding
    ensures u < |s.threads| && !s.threads[u].pc.Idle? && Step(s, u, CallNext).threads[u] != s.threads[u]
  {
    hide Deal, Growing, At, Shared, Distinct, Quiet, Act;
    u := if s.threads[t].pc.Lock? && s.vars.mutex.Some? then s.vars.mutex.value else t;
    var w := u;
    assert Local(s.vars, s.threads[w], w);
    if s.threads[w].pc.Drain? && s.vars.inFlight != 0 {
      DrainWaitsForOthers(s, w);
      u :| 0 <= u < |s.threads| && u != w && Claims(s.threads[u]);
      assert !s.threads[u].holding;
    }
    ActMoves(s.vars, s.threads[u], u);
  }

  // ----- Held batches are in the index

  /** A batch of the current window, whose steps are in the index. */
  predicate InCurrent(v: Vars, batch: Batch)
    requires v.seen != []
  {
    WindowStart(v.seen, |v.seen| - 1) <= batch.first < batch.last <= Capacity(v)
  }

  ghost predicate HeldCurrent(s: State)
    requires s.vars.seen != []
  {
    forall t :: 0 <= t < |s.threads| && s.threads[t].holding ==> InCurrent(s.vars, s.threads[t].batch)
  }

  lemma IndexInWindow(v: Vars)
    requires Shared(v)
    ensures WindowStart(v.seen, |v.seen| - 1) <= v.eventIdx
  {
    hide Deal, Growing;
    GrowingPrefix(v.seen, v.future);
    WindowBlock(v.seen, v.size, 0);
    var n := |v.log| - |Deal(v.seen[..|v.seen| - 1], v.size)|;
    MulUp(0, n, v.size);
  }

  /** Only a trigger moves the window, and a batch that is received is in it. */
  lemma ActHeld(v: Vars, th: Thread, t: nat, choice: Choice)
    requires Shared(v) && Local(v, th, t)
    ensures var e := Act(v, th, t, choice);
            && e.vars.seen != [] && (e.vars.seen != v.seen ==> th.pc.Reindex?)
            && (e.thread.holding && !th.holding ==> InCurrent(e.vars, e.thread.batch))
            && (e.thread.holding && th.holding ==> e.thread.batch == th.batch)
  {
    hide Deal, Growing, At;
    IndexInWindow(v);
    match th.pc
    case Try =>
    case Reindex =>
    case _ =>
  }

  lemma StepHeldCurrent(s: State, t: nat, choice: Choice)
    requires Inv(s) && HeldCurrent(s)
    ensures Step(s, t, choice).vars.seen != [] && HeldCurrent(Step(s, t, choice))
  {
    StepInv(s, t, choice);
    hide Deal, Growing, At, Act, Shared, Distinct, InCurrent;
    if t < |s.threads| {
      var n := Step(s, t, choice);
      assert Local(s.vars, s.threads[t], t);
      ActHeld(s.vars, s.threads[t], t, choice);
      forall u | 0 <= u < |n.threads| && n.threads[u].holding
        ensures InCurrent(n.vars, n.threads[u].batch)
      {
        if n.vars.seen == s.vars.seen {
          SameCurrent(s.vars, n.vars, n.threads[u].batch);
        }
      }
    }
  }

  lemma SameCurrent(v: Vars, w: Vars, batch: Batch)
    requires v.seen != [] && v.seen == w.seen
    ensures InCurrent(v, batch) <==> InCurrent(w, batch)
  {
  }

  /** In every reachable state the steps of a batch that a thread holds are in the current window: the trigger
      runs only when no batch is held. */
  lemma {:induction false} HeldInWindow(s: State, size: Size, caps: seq<nat>, steps: nat)
    requires caps != [] && Growing(caps) && Reachable(s, size, caps, steps)
    ensures s.vars.seen != [] && HeldCurrent(s)
    decreases steps
  {
    hide Inv, Step, Growing;
    ReachableInv(s, size, caps, steps);
    if steps > 0 {
      var before: State, t: nat, choice: Choice :| IsStep(before, t, choice, s) && Reachable(before, size, caps, steps - 1);
      ReachableInv(before, size, caps, steps - 1);
      HeldInWindow(before, size, caps, steps - 1);
      StepHeldCurrent(before, t, choice);
    }
  }

  // ----- Every run is bounded

  /** How many accesses a thread is from its next claim, or from leaving the policy, if nothing interferes. */
  function Way(th: Thread): (n: nat)
    ensures n <= 16
  {
    var useful := th.current < th.cap;
    match th.pc
    case Idle => 0
    case Try => if useful then 1 else 13
    case Claim => if useful then 2 else 14
    case Unlock => if useful then 3 else 15
    case LeaveExhausted => 1
    case StoreExhausted => 2
    case Reindex => 3
    case Drain => 4
    case ReloadCapacity => 5
    case ReloadIndex => 6
    case Publish => 7
    case CompareCapacity => 8
    case CheckLocked => 9
    case Lock => 10
    case LoadCapacity => 11
    case CheckExhausted => 12
    case LoadIndex => 13
    case TryCapacity => 14
    case Release => 14
    case StoreCapacity => 16
  }

  /** A thread whose counter is outdated may have to go a part of the way again. */
  function ThreadWork(eventIdx: nat, th: Thread): (n: nat)
    ensures n <= 36
  {
    Way(th) + if th.current != eventIdx then 20 else 0
  }

  function Weigh(eventIdx: nat): Thread -> nat {
    th => ThreadWork(eventIdx, th)
  }

  /** The batches that are still to be handed out, and the triggers to come. */
  ghost function Left(v: Vars): int {
    |v.future| + |Deal(v.seen + v.future, v.size)| - |v.log|
  }

  ghost function Work(s: State): int {
    Left(s.vars) * (40 * |s.threads|) + Sum(s.threads, Weigh(s.vars.eventIdx))
  }

  lemma NothingLeftNegative(v: Vars)
    requires Shared(v)
    ensures Left(v) >= 0
  {
    hide Deal, Growing, At;
    DealPrefix(v.seen, v.future, v.size);
  }

  /** An access either takes a thread further on its way, or claims a batch or runs a trigger. */
  lemma ActGoesOn(v: Vars, th: Thread, t: nat, choice: Choice)
    requires Shared(v) && Local(v, th, t) && !choice.Spurious? && Act(v, th, t, choice) != Effect(v, th)
    ensures var e := Act(v, th, t, choice);
            || (Left(e.vars) < Left(v) && !th.pc.Idle?)
            || (Left(e.vars) == Left(v) && e.vars.eventIdx == v.eventIdx
                && (!th.pc.Idle? ==> ThreadWork(v.eventIdx, e.thread) < ThreadWork(v.eventIdx, th)))
  {
    hide Deal, Growing, At;
    ActLocal(v, th, t, choice);
    match th.pc
    case Try =>
    case Reindex =>
    case Unlock =>
    case Claim =>
    case TryCapacity =>
    case StoreCapacity =>
    case Idle =>
    case _ =>
  }

  /** So with every step there is less to do, except that a call from outside adds its own way. */
  lemma StepShrinks(s: State, t: nat, choice: Choice)
    requires Inv(s) && t < |s.threads| && !choice.Spurious? && Step(s, t, choice) != s
    ensures Work(Step(s, t, choice)) < Work(s) + if s.threads[t].pc.Idle? then 40 else 0
  {
    hide Deal, Growing, At, Act, Shared, Local, Distinct, Quiet, Left, ThreadWork;
    var n := Step(s, t, choice);
    assert Local(s.vars, s.threads[t], t);
    assert s.threads[t := s.threads[t]] == s.threads;
    ActGoesOn(s.vars, s.threads[t], t, choice);
    SumUpdate(s.threads, Weigh(s.vars.eventIdx), t, n.threads[t]);
    SumAtMost(n.threads, Weigh(n.vars.eventIdx), 36);
    if Left(n.vars) < Left(s.vars) {
      MulUp(Left(n.vars) + 1, Left(s.vars), 40 * |s.threads|);
      MulStep(Left(n.vars), 40 * |s.threads|);
    }
  }

  ghost predicate IsRun(states: seq<State>, moves: seq<(nat, Choice)>) {
    && |states| == |moves| + 1
    && forall i :: 0 <= i < |moves| ==>
         && moves[i].0 < |states[i].threads| && IsStep(states[i], moves[i].0, moves[i].1, states[i + 1])
         && states[i + 1] != states[i] && !moves[i].1.Spurious?
  }

  /** The steps in which a thread enters the policy, or ends its iteration. */
  ghost function Calls(states: seq<State>, moves: seq<(nat, Choice)>, n: nat): nat
    requires IsRun(states, moves) && n <= |moves|
  {
    if n == 0 then 0
    else Calls(states, moves, n - 1) + if states[n - 1].threads[moves[n - 1].0].pc.Idle? then 1 else 0
  }

  /** Without exchanges that fail for no reason, a run of any schedule is no longer than what there is to hand
      out, and the number of calls, allow: threads never keep each other busy with retries. */
  lemma {:induction false} EveryRunEnds(states: seq<State>, moves: seq<(nat, Choice)>, n: nat)
    requires IsRun(states, moves) && Inv(states[0]) && n <= |moves|
    ensures Inv(states[n]) && Work(states[n]) >= 0
    ensures n + Work(states[n]) <= Work(states[0]) + 40 * Calls(states, moves, n)
  {
    hide Inv, Work, Step;
    if n > 0 {
      var i := n - 1;
      EveryRunEnds(states, moves, i);
      assert IsStep(states[i], moves[i].0, moves[i].1, states[i + 1]) && states[i + 1] != states[i];
      StepInv(states[i], moves[i].0, moves[i].1);
      StepShrinks(states[i], moves[i].0, moves[i].1);
    }
    WorkIsNat(states[n]);
  }

  lemma WorkIsNat(s: State)
    requires Inv(s)
    ensures Work(s) >= 0
  {
    hide Left, Shared, Locals, Distinct, Quiet;
    NothingLeftNegative(s.vars);
    MulUp(0, Left(s.vars), 40 * |s.threads|);
  }

  /** A thread that ends its iteration gives back what it holds, which then is not waited for. */
  lemma EndGivesBack(s: State, t: nat)
    requires Inv(s) && t < |s.threads| && s.threads[t].pc.Idle?
    ensures s.vars.seen != []
    ensures var n := Step(s, t, EndIteration);
            && n.threads[t].pc.Idle? && !n.threads[t].holding && n.vars.log == s.vars.log
            && n.vars.inFlight == s.vars.inFlight - if s.threads[t].holding then 1 else 0
  {
  }

  // ----- A call on its own

  /** No other thread is in the policy or holds a batch. */
  ghost predicate OthersRest(s: State, t: nat) {
    forall u :: 0 <= u < |s.threads| && u != t ==> s.threads[u].pc.Idle? && !s.threads[u].holding
  }

  /** Then the thread does not wait. */
  lemma NoWaitAlone(s: State, t: nat)
    requires Inv(s) && t < |s.threads| && !s.threads[t].pc.Idle? && OthersRest(s, t)
    ensures !Waits(s.vars, s.threads[t])
  {
    hide Deal, Growing, At, Shared, Distinct, Quiet;
    assert Local(s.vars, s.threads[t], t);
    if s.vars.mutex.Some? {
      assert Local(s.vars, s.threads[s.vars.mutex.value], s.vars.mutex.value);
    }
    if s.threads[t].pc.Drain? && s.vars.inFlight != 0 {
      DrainWaitsForOthers(s, t);
    }
  }

  /** Where a call that began in state s stands: the thread is still on its way, or it came back. */
  ghost predicate CallStands(s: State, n: State, t: nat)
    requires t < |s.threads|
  {
    && Inv(n) && |n.threads| == |s.threads| && OthersRest(n, t)
    && n.vars.seen + n.vars.future == s.vars.seen + s.vars.future && n.vars.size == s.vars.size
    && if n.threads[t].holding && n.threads[t].pc.Idle? then n.vars.log == s.vars.log + [n.threads[t].batch]
       else n.vars.log == s.vars.log && (n.threads[t].pc.Idle? ==> n.vars.exhausted)
  }

  lemma CallBegins(s: State, t: nat)
    requires Inv(s) && t < |s.threads| && s.threads[t].pc.Idle? && OthersRest(s, t)
    ensures s.vars.seen != []
    ensures var n := Step(s, t, CallNext); CallStands(s, n, t) && !n.threads[t].pc.Idle? && n != s
  {
    hide Shared, Locals, Quiet, Distinct;
    StepInv(s, t, CallNext);
    assert Step(s, t, CallNext).threads[t] != s.threads[t];
  }

  lemma CallGoesOn(s: State, m: State, t: nat)
    requires t < |s.threads| && CallStands(s, m, t) && !m.threads[t].pc.Idle?
    ensures m.vars.seen != []
    ensures var n := Step(m, t, CallNext); CallStands(s, n, t) && n != m && 0 <= Work(n) < Work(m)
  {
    hide Deal, Growing, At, Shared, Distinct, Quiet, Act, Work;
    var n := Step(m, t, CallNext);
    StepInv(m, t, CallNext);
    NoWaitAlone(m, t);
    ActMoves(m.vars, m.threads[t], t);
    StepShrinks(m, t, CallNext);
    WorkIsNat(n);
    assert Local(m.vars, m.threads[t], t);
    ActClaims(m.vars, m.threads[t], t, CallNext);
    NotHeldInside(m, t);
    if n.threads[t].pc.Idle? && !n.threads[t].holding {
      EmptyOnlyExhausted(m, t, CallNext);
    }
    CallReceives(m, t);
  }

  lemma NotHeldInside(m: State, t: nat)
    requires Inv(m) && t < |m.threads|
    ensures m.threads[t].holding ==> m.threads[t].pc.Idle? || m.threads[t].pc.Release?
  {
    hide Deal, Growing, At, Shared, Distinct, Quiet;
    assert Local(m.vars, m.threads[t], t);
  }

  /** A step inside of the policy claims a batch exactly when it comes back with one. */
  lemma CallReceives(m: State, t: nat)
    requires Inv(m) && t < |m.threads| && !m.threads[t].pc.Idle?
    ensures var n := Step(m, t, CallNext).threads[t];
            if n.holding && n.pc.Idle? then Step(m, t, CallNext).vars.log == m.vars.log + [n.batch]
            else Step(m, t, CallNext).vars.log == m.vars.log
  {
    hide Deal, Growing, At, Shared, Distinct, Quiet;
    assert Local(m.vars, m.threads[t], t);
  }

  /** What a call that came back received. */
  lemma CallResult(s: State, n: State, t: nat)
    requires t < |s.threads| && CallStands(s, n, t) && n.threads[t].pc.Idle?
    ensures var all := Deal(s.vars.seen + s.vars.future, s.vars.size);
            if |s.vars.log| < |all| then n.threads[t].holding && n.threads[t].batch == all[|s.vars.log|]
            else !n.threads[t].holding && n.vars.exhausted
  {
    hide Deal, Growing, At, Locals, Distinct, Quiet, OthersRest;
    DealPrefix(n.vars.seen, n.vars.future, n.vars.size);
    GrowingPrefix(n.vars.seen, n.vars.future);
    AtNext(n.vars.seen, n.vars.size, n.vars.eventIdx, |n.vars.log|);
    if n.vars.exhausted {
      assert n.vars.seen + n.vars.future == n.vars.seen;
    }
    if n.threads[t].holding {
      assert n.vars.log[|s.vars.log|] == n.threads[t].batch;
    }
  }

  /** A call while no other thread is in the policy or holds a batch comes back, with the next block of the deal if
      there is one, and otherwise without a batch. */
  lemma CallAlone(s: State, t: nat) returns (states: seq<State>, moves: seq<(nat, Choice)>)
    requires Inv(s) && t < |s.threads| && s.threads[t].pc.Idle? && OthersRest(s, t)
    ensures IsRun(states, moves) && states[0] == s && forall i :: 0 <= i < |moves| ==> moves[i] == (t, CallNext)
    ensures var n := states[|moves|];
            var all := Deal(s.vars.seen + s.vars.future, s.vars.size);
            && t < |n.threads| && n.threads[t].pc.Idle?
            && if |s.vars.log| < |all|
               then n.threads[t].holding && n.threads[t].batch == all[|s.vars.log|] && n.vars.log == s.vars.log + [all[|s.vars.log|]]
               else !n.threads[t].holding && n.vars.exhausted && n.vars.log == s.vars.log
  {
    hide Deal, Inv, Step, OthersRest, Work;
    CallBegins(s, t);
    states, moves := [s, Step(s, t, CallNext)], [(t, CallNext)];
    WorkIsNat(states[1]);
    while !states[|moves|].threads[t].pc.Idle?
      invariant IsRun(states, moves) && states[0] == s && forall i :: 0 <= i < |moves| ==> moves[i] == (t, CallNext)
      invariant CallStands(s, states[|moves|], t)
      invariant Work(states[|moves|]) >= 0
      decreases Work(states[|moves|])
    {
      var m := states[|moves|];
      CallGoesOn(s, m, t);
      states, moves := states + [Step(m, t, CallNext)], moves + [(t, CallNext)];
    }
    CallResult(s, states[|moves|], t);
  }
}
