/** The threads of one MPI rank: they claim rounds of a shared counter, and read the window that says which
    block a round is from four variables under a version counter that is odd while the window changes. One
    access to one shared variable per step; the threads interleave in any way. */
module WindowHandOut {
  import opened Common
  import opened Counting
  import opened Dealing
  import opened Reindexing

  /** What a thread does next: outside of the mutex, ... */
  datatype FreePc =
    | Idle                // outside of the policy, possibly holding a batch
    | Release             // return the held batch
    | JoinLock
    | LeaveLock
    | CheckExhausted      // the head of the loop
    | Lock
    | Claim
    | Exchange
    | Unclaim

  /** ... reading the round and the window, under the mutex or not, ... */
  datatype ReadPc = LoadRound | LoadVersion | LoadCapacity | LoadStart | LoadBase | LoadBefore | Recheck

  /** ... under the mutex, ... */
  datatype LockedPc =
    | JoinCheck | JoinCount
    | LeaveCount | LeaveCheck | LeaveCheckDeparted | LeaveDepart
    | CheckLocked | CompareCapacity
    | Drain               // wait for everything handed out
    | Reindex             // release the window, and the trigger runs
    | StoreExhausted
    | UnlockLeave | UnlockLoop

  /** ... or changing the window. */
  datatype PublishPc = PubLoad | PubBegin | PubLoadStart | PubBefore | PubStart | PubBase | PubCapacity | PubEnd

  datatype Pc = Free(free: FreePc) | Read(read: ReadPc) | Locked(locked: LockedPc) | Publish(publish: PublishPc)

  datatype Window = Window(cap: nat, start: nat, base: nat, before: nat)

  datatype Thread = Thread(
    pc: Pc,
    participating: bool,
    holding: bool,
    locked: bool,       // holds the trigger mutex
    extend: bool,       // publishes a capacity only
    round: nat, version: nat, window: Window, first: nat,
    batch: Batch, place: nat)

  /** How blocks are dealt to this rank. */
  datatype Rank = Rank(size: Size, workers: Size, worker: nat)

  /** The round counter and the window, with the capacities that the trigger reached, the last one current. */
  datatype Core = Core(rank: Rank, round: nat, window: Window, version: nat, seen: seq<nat>)

  /** What the threads share. */
  datatype Vars = Vars(
    core: Core,
    inFlight: int,
    activeUnits: int,
    departed: bool,
    exhausted: bool,
    mutex: Option<nat>,
    future: seq<nat>,       // the capacities that the trigger will reach
    windows: seq<Window>,   // the windows published so far, one for each even version
    log: seq<Batch>)        // the batches in the order of their claims

  datatype State = State(vars: Vars, threads: seq<Thread>)

  /** What an idle thread does. */
  datatype Choice = CallNext | EndIteration

  datatype Effect = Effect(vars: Vars, thread: Thread)

  function Capacity(c: Core): nat
    requires c.seen != []
  {
    c.seen[|c.seen| - 1]
  }

  /** The rank's first step of a round, in a window. */
  function First(rank: Rank, w: Window, round: nat): nat
    requires w.base <= round
  {
    MulUp(0, round - w.base, rank.workers);
    var block: nat := (round - w.base) * rank.workers + Offset(w.before, rank.worker, rank.workers);
    MulUp(0, block, rank.size);
    w.start + block * rank.size
  }

  function Put(v: Vars, w: Window): Vars {
    v.(core := v.core.(window := w))
  }

  predicate Even(n: nat) {
    n % 2 == 0
  }

  function Half(n: nat): nat {
    n / 2
  }

  lemma Halves(n: nat)
    ensures Even(n) ==> !Even(n + 1) && Half(n + 1) == Half(n) && Even(n + 2) && Half(n + 2) == Half(n) + 1
    ensures Even(0) && Half(0) == 0
  {
  }

  function ActFree(v: Vars, th: Thread, t: nat, choice: Choice): Effect
    requires th.pc.Free?
  {
    match th.pc.free
    case Idle =>
      if choice.CallNext? then
        Effect(v, th.(pc := if !th.participating then Free(JoinLock) else if th.holding then Free(Release)
            else Free(CheckExhausted)))
      else if th.participating then
        Effect(if th.holding then v.(inFlight := v.inFlight - 1)
            else v, th.(pc := Free(LeaveLock), holding := false, participating := false))
      else Effect(v, th)
    case Release => Effect(v.(inFlight := v.inFlight - 1), th.(pc := Free(CheckExhausted), holding := false))
    case JoinLock => if v.mutex.None? then Effect(v.(mutex := Some(t)), th.(pc := Locked(JoinCheck), locked := true))
        else Effect(v, th)
    case LeaveLock => if v.mutex.None? then Effect(v.(mutex := Some(t)), th.(pc := Locked(LeaveCount), locked := true))
        else Effect(v, th)
    case CheckExhausted => Effect(v, th.(pc := if v.exhausted then Free(Idle) else Read(LoadRound)))
    case Lock => if v.mutex.None? then Effect(v.(mutex := Some(t)), th.(pc := Locked(CheckLocked), locked := true))
        else Effect(v, th)
    case Claim => Effect(v.(inFlight := v.inFlight + 1), th.(pc := Free(Exchange)))
    case Exchange =>
      if v.core.round == th.round then
        var want := th.first + v.core.rank.size;
        var batch := Batch(th.first, if want < th.window.cap then want else th.window.cap);
        Effect(v.(core := v.core.(round := th.round + 1), log := v.log + [batch]),
               th.(pc := Free(Idle), holding := true, batch := batch, place := |v.log|))
      else Effect(v, th.(pc := Free(Unclaim), round := v.core.round))
    case Unclaim => Effect(v.(inFlight := v.inFlight - 1), th.(pc := Free(CheckExhausted)))
  }

  function Retry(th: Thread): Thread {
    th.(pc := if th.locked then Locked(UnlockLoop) else Free(CheckExhausted))
  }

  /** Read the round and the window; locked or not. */
  function ActRead(v: Vars, th: Thread): Thread
    requires th.pc.Read?
  {
    match th.pc.read
    case LoadRound => th.(pc := Read(LoadVersion), round := v.core.round)
    case LoadVersion => if !Even(v.core.version) then Retry(th) else th.(pc := Read(LoadCapacity), version := v.core.version)
    case LoadCapacity => th.(pc := Read(LoadStart), window := th.window.(cap := v.core.window.cap))
    case LoadStart => th.(pc := Read(LoadBase), window := th.window.(start := v.core.window.start))
    case LoadBase => th.(pc := Read(LoadBefore), window := th.window.(base := v.core.window.base))
    case LoadBefore => th.(pc := Read(Recheck), window := th.window.(before := v.core.window.before))
    case Recheck =>
      if v.core.version != th.version || th.round < th.window.base then Retry(th)
      else
        var first := First(v.core.rank, th.window, th.round);
        th.(first := first,
            pc := if first >= th.window.cap then if th.locked then Locked(Drain) else Free(Lock) else if th.locked
                then Locked(UnlockLoop) else Free(Claim))
  }

  function ActLocked(v: Vars, th: Thread): Effect
    requires th.pc.Locked? && v.core.seen != []
  {
    match th.pc.locked
    case JoinCheck => Effect(v, th.(pc := if v.departed then Locked(UnlockLeave) else Locked(JoinCount)))
    case JoinCount => Effect(v.(activeUnits := v.activeUnits + 1), th.(pc := Locked(UnlockLoop), participating := true))
    case LeaveCount =>
      Effect(v.(activeUnits := v.activeUnits - 1), th.(pc := if v.activeUnits - 1 != 0 then Locked(UnlockLeave)
          else Locked(LeaveCheck)))
    case LeaveCheck => Effect(v, th.(pc := if v.exhausted then Locked(UnlockLeave) else Locked(LeaveCheckDeparted)))
    case LeaveCheckDeparted => Effect(v, th.(pc := if v.departed then Locked(UnlockLeave) else Locked(LeaveDepart)))
    case LeaveDepart => Effect(v.(departed := true), th.(pc := Locked(UnlockLeave)))
    case CheckLocked => Effect(v, th.(pc := if v.exhausted then Locked(UnlockLeave) else Locked(CompareCapacity)))
    case CompareCapacity =>
      Effect(v, if v.core.window.cap != Capacity(v.core) then th.(pc := Publish(PubLoad), extend := true)
          else th.(pc := Read(LoadRound)))
    case Drain => Effect(v, if v.inFlight != 0 then th else th.(pc := Locked(Reindex)))
    case Reindex =>
      if v.future == [] then Effect(v, th.(pc := Locked(StoreExhausted)))
      else Effect(v.(core := v.core.(seen := v.core.seen + [v.future[0]]), future := v.future[1..]),
                  th.(pc := Publish(PubLoad), extend := false))
    case StoreExhausted => Effect(v.(exhausted := true), th.(pc := Locked(UnlockLeave)))
    case UnlockLeave => Effect(v.(mutex := None), th.(pc := Free(Idle), locked := false))
    case UnlockLoop => Effect(v.(mutex := None), th.(pc := Free(CheckExhausted), locked := false))
  }

  /** Change the window, either its capacity only or all of it. */
  function ActPublish(v: Vars, th: Thread): Effect
    requires th.pc.Publish? && v.core.seen != []
  {
    match th.pc.publish
    case PubLoad => Effect(v, th.(pc := Publish(PubBegin), version := v.core.version))
    case PubBegin => Effect(v.(core := v.core.(version := th.version + 1)), th.(pc := if th.extend then Publish(PubCapacity)
        else Publish(PubLoadStart)))
    case PubLoadStart => Effect(v, th.(pc := Publish(PubBefore), window := th.window.(start := v.core.window.start)))
    case PubBefore =>
      var blocks := if th.window.start <= th.window.cap then Blocks(th.window.start, th.window.cap, v.core.rank.size)
          else 0; // never the latter
      Effect(Put(v, v.core.window.(before := v.core.window.before + blocks)), th.(pc := Publish(PubStart)))
    case PubStart => Effect(Put(v, v.core.window.(start := th.window.cap)), th.(pc := Publish(PubBase)))
    case PubBase => Effect(Put(v, v.core.window.(base := th.round)), th.(pc := Publish(PubCapacity)))
    case PubCapacity => Effect(Put(v, v.core.window.(cap := Capacity(v.core))), th.(pc := Publish(PubEnd)))
    case PubEnd =>
      Effect(v.(core := v.core.(version := th.version + 2), windows := v.windows + [v.core.window]),
             th.(pc := if th.extend then Read(LoadRound) else Locked(UnlockLoop)))
  }

  /** One access of thread t to the shared variables. */
  function Act(v: Vars, th: Thread, t: nat, choice: Choice): Effect
    requires v.core.seen != []
  {
    match th.pc
    case Free(_) => ActFree(v, th, t, choice)
    case Read(_) => Effect(v, ActRead(v, th))
    case Locked(_) => ActLocked(v, th)
    case Publish(_) => ActPublish(v, th)
  }

  function Step(s: State, t: nat, choice: Choice): State
    requires s.vars.core.seen != []
  {
    if t >= |s.threads| then s
    else
      var e := Act(s.vars, s.threads[t], t, choice);
      State(e.vars, s.threads[t := e.thread])
  }

  function Start(rank: Rank, threads: nat, capacity: nat, future: seq<nat>): State {
    var none := Window(0, 0, 0, 0);
    State(Vars(Core(rank, 0, none, 0, [capacity]), 0, 0, false, false, None, future, [none], []),
          seq(threads, _ => Thread(Free(Idle), false, false, false, false, 0, 0, none, 0, Batch(0, 0), 0)))
  }

  // ----- What every step keeps

  /** The rank's k-th block, as a block of the deal. */
  function Nth(rank: Rank, k: nat): nat {
    rank.worker + k * rank.workers
  }

  ghost predicate Dealt(rank: Rank, seen: seq<nat>, log: seq<Batch>) {
    forall k :: 0 <= k < |log| ==> Nth(rank, k) < |Deal(seen, rank.size)| && log[k] == Deal(seen, rank.size)[Nth(rank, k)]
  }

  predicate Versions(version: nat, window: Window, windows: seq<Window>) {
    |windows| == Half(version) + 1 && (Even(version) ==> windows[Half(version)] == window)
  }

  /** The window is the n-th one that the capacities make. */
  ghost predicate InWindow(rank: Rank, seen: seq<nat>, w: Window, n: nat)
    requires n < |seen|
  {
    && w.start == WindowStart(seen, n)
    && w.before == |Deal(seen[..n], rank.size)|
    && w.before + Offset(w.before, rank.worker, rank.workers) == Nth(rank, w.base)
  }

  /** Nobody is changing the window. */
  ghost predicate Settled(c: Core) {
    && c.seen != [] && Even(c.version) && InWindow(c.rank, c.seen, c.window, |c.seen| - 1) && c.window.base <= c.round
    && (c.window.cap == Capacity(c) || (c.window.cap == 0 && c.round == 0 && |c.seen| == 1))
    && (c.round == c.window.base || Nth(c.rank, c.round) < |Deal(c.seen, c.rank.size)| + c.rank.workers)
  }

  /** The rank has no block left in the window. */
  predicate Closed(rank: Rank, w: Window, round: nat) {
    w.base <= round && First(rank, w, round) >= w.cap
  }

  /** All blocks of the windows seen that are this rank's were handed out. */
  ghost predicate Finished(rank: Rank, seen: seq<nat>, round: nat) {
    Nth(rank, round) >= |Deal(seen, rank.size)|
  }

  ghost predicate Shared(v: Vars) {
    var c := v.core;
    && c.seen != [] && Growing(c.seen + v.future) && c.rank.worker < c.rank.workers
    && c.round == |v.log| && Dealt(c.rank, c.seen, v.log) && Versions(c.version, c.window, v.windows)
    && (v.exhausted ==> v.future == [] && Finished(c.rank, c.seen, c.round))
    && (v.departed ==> v.activeUnits == 0)
    && (v.mutex.None? || (Even(c.version) && !Closed(c.rank, c.window, c.round)) ==> Settled(c))
  }

  /** What a thread read is the window, while the version stands. */
  predicate Reading(c: Core, th: Thread, read: ReadPc) {
    var w := th.window;
    && (read != LoadRound && read != LoadVersion ==> Even(th.version))
    && (th.version == c.version ==>
          match read
          case LoadRound => true
          case LoadVersion => true
          case LoadCapacity => true
          case LoadStart => w.cap == c.window.cap
          case LoadBase => w.cap == c.window.cap && w.start == c.window.start
          case LoadBefore => w.cap == c.window.cap && w.start == c.window.start && w.base == c.window.base
          case Recheck => w == c.window)
  }

  /** What a thread read is one of the windows published; a claim can only succeed in the current one. */
  predicate Validated(c: Core, windows: seq<Window>, th: Thread, free: FreePc) {
    free == Lock || free == Claim || free == Exchange ==>
      && Even(th.version) && Half(th.version) < |windows| && windows[Half(th.version)] == th.window
      && th.window.base <= th.round && th.first == First(c.rank, th.window, th.round)
      && (free != Lock ==> th.first < th.window.cap && (th.round < c.round || th.version == c.version))
  }

  predicate Loaded(c: Core, windows: seq<Window>, th: Thread) {
    && th.round <= c.round && th.version <= c.version
    && (th.pc.Read? ==> Reading(c, th, th.pc.read))
    && (th.pc.Free? ==> Validated(c, windows, th, th.pc.free))
  }

  predicate IsJoinOrLeave(pc: Pc) {
    pc == Free(JoinLock) || pc == Locked(JoinCheck) || pc == Locked(JoinCount)
    || pc == Free(LeaveLock) || pc == Locked(LeaveCount) || pc == Locked(LeaveCheck)
    || pc == Locked(LeaveCheckDeparted) || pc == Locked(LeaveDepart)
  }

  /** From the check that nothing is in flight until the new window is published. */
  predicate InReindex(th: Thread) {
    th.pc == Locked(Reindex) || th.pc == Locked(StoreExhausted) || (th.pc.Publish? && !th.extend)
  }

  /** What a thread holds, and what it relies on besides the window. */
  predicate Role(v: Vars, th: Thread, t: nat) {
    && (th.locked <==> v.mutex == Some(t))
    && (th.pc.Free? ==> !th.locked) && (th.locked || th.pc.Free? || th.pc.Read?)
    && (th.holding ==>
        th.participating && (th.pc == Free(Idle) || th.pc == Free(Release)) && th.place < |v.log| && v.log[th.place] == th.batch)
    && (th.pc == Free(Release) ==> th.holding)
    && (!th.participating ==> th.pc == Free(Idle) || th.pc == Locked(UnlockLeave) || IsJoinOrLeave(th.pc))
    && (IsJoinOrLeave(th.pc) ==> !th.participating)
    && (th.pc == Locked(JoinCount) ==> !v.departed)
    && (th.pc == Locked(LeaveCheck) || th.pc == Locked(LeaveCheckDeparted) || th.pc == Locked(LeaveDepart) ==>
        v.activeUnits == 0)
    && (th.pc == Locked(StoreExhausted) ==> v.future == [])
  }

  /** What a thread that holds the mutex knows about the window. */
  ghost predicate Phase(c: Core, th: Thread)
    requires c.seen != []
  {
    && (th.locked && !th.pc.Publish? ==> Settled(c))
    && ((th.locked && th.pc.Read?) || th.pc == Locked(Drain) || th.pc == Locked(Reindex) || th.pc == Locked(StoreExhausted) ==> c.window.cap == Capacity(c))
    && (th.pc == Locked(Drain) || th.pc == Locked(Reindex) || th.pc == Locked(StoreExhausted) ==>
          Closed(c.rank, c.window, c.round) && Finished(c.rank, c.seen, c.round) && th.round == c.round
              && th.window.cap == c.window.cap)
    && (th.pc.Publish? && th.extend ==> Extending(c, th))
    && (th.pc.Publish? && !th.extend ==> Turning(c, th))
  }

  predicate VersionPhase(c: Core, th: Thread, publish: PublishPc) {
    match publish
    case PubLoad => Even(c.version) && Closed(c.rank, c.window, c.round)
    case PubBegin => Even(c.version) && Closed(c.rank, c.window, c.round) && th.version == c.version
    case _ => Even(th.version) && c.version == th.version + 1
  }

  ghost predicate Extending(c: Core, th: Thread)
    requires c.seen != [] && th.pc.Publish?
  {
    var publish := th.pc.publish;
    && VersionPhase(c, th, publish)
    && |c.seen| == 1 && c.round == 0 && c.window.base == 0 && InWindow(c.rank, c.seen, c.window, 0)
    && (publish == PubLoad || publish == PubBegin || publish == PubCapacity || publish == PubEnd)
    && (publish == PubEnd ==> c.window.cap == Capacity(c))
  }

  /** The trigger made a window, which the thread publishes. */
  ghost predicate Turning(c: Core, th: Thread)
    requires c.seen != [] && th.pc.Publish?
  {
    var n: int := |c.seen| - 1;
    && VersionPhase(c, th, th.pc.publish)
    && n >= 1 && th.window.cap == c.seen[n - 1] && th.round == c.round && c.window.base <= c.round
    && (var before := |Deal(c.seen[..n], c.rank.size)|;
        before + Offset(before, c.rank.worker, c.rank.workers) == Nth(c.rank, c.round))
    && match th.pc.publish
       case PubLoad => InWindow(c.rank, c.seen, c.window, n - 1)
       case PubBegin => InWindow(c.rank, c.seen, c.window, n - 1)
       case PubLoadStart => InWindow(c.rank, c.seen, c.window, n - 1)
       case PubBefore => InWindow(c.rank, c.seen, c.window, n - 1) && th.window.start == c.window.start
       case PubStart => c.window.before == |Deal(c.seen[..n], c.rank.size)|
       case PubBase => c.window.before == |Deal(c.seen[..n], c.rank.size)| && c.window.start == th.window.cap
       case PubCapacity => InWindow(c.rank, c.seen, c.window, n) && c.window.base == c.round
       case PubEnd => InWindow(c.rank, c.seen, c.window, n) && c.window.base == c.round && c.window.cap == Capacity(c)
  }

  // ----- Windows and the deal

  lemma MulRounds(r: nat, base: nat, workers: nat)
    requires base <= r
    ensures base * workers + (r - base) * workers == r * workers
  {
  }

  /** In a settled window, a round has a block exactly when its first step is below the capacity. */
  lemma FirstBlock(c: Core, r: nat)
    requires c.seen != [] && Growing(c.seen) && InWindow(c.rank, c.seen, c.window, |c.seen| - 1)
        && c.window.cap == Capacity(c) && c.window.base <= r
    ensures var first := First(c.rank, c.window, r);
            && (first >= c.window.cap <==> Nth(c.rank, r) >= |Deal(c.seen, c.rank.size)|)
            && (first < c.window.cap ==>
                  Deal(c.seen, c.rank.size)[Nth(c.rank, r)] == Batch(first, if first + c.rank.size < c.window.cap
                      then first + c.rank.size else c.window.cap))
  {
    hide Even, Half, Deal, Growing, Offset;
    MulRounds(r, c.window.base, c.rank.workers);
    WindowBlock(c.seen, c.rank.size, (r - c.window.base) * c.rank.workers + Offset(c.window.before, c.rank.worker, c.rank.workers));
  }

  lemma NthSteps(rank: Rank, k: nat)
    ensures Nth(rank, k + 1) == Nth(rank, k) + rank.workers
  {
    MulStep(k, rank.workers);
  }

  /** When no block is left, the rank's next block is counted from the end of the window. */
  lemma TurnBase(c: Core)
    requires c.seen != [] && Growing(c.seen) && c.rank.worker < c.rank.workers && Settled(c)
        && Finished(c.rank, c.seen, c.round)
    ensures var before := |Deal(c.seen, c.rank.size)|;
            before + Offset(before, c.rank.worker, c.rank.workers) == Nth(c.rank, c.round)
  {
    hide Even, Half, Deal, Growing, Offset;
    WindowBlock(c.seen, c.rank.size, 0);
    OffsetBelongs(c.window.before, c.rank.worker, c.rank.workers);
    DivIs(Nth(c.rank, c.round), c.rank.workers, c.round);
    OffsetIs(|Deal(c.seen, c.rank.size)|, c.rank.worker, c.rank.workers, Nth(c.rank, c.round));
  }

  /** Whoever can exchange the round has read the window as it is. */
  lemma ClaimIsCurrent(v: Vars, th: Thread)
    requires Shared(v) && Loaded(v.core, v.windows, th) && th.pc == Free(Exchange) && th.round == v.core.round
    ensures Even(v.core.version) && v.core.window == th.window && th.window.base <= th.round
    ensures !Closed(v.core.rank, v.core.window, v.core.round) && Settled(v.core)
    ensures th.first == First(v.core.rank, th.window, th.round) < th.window.cap == Capacity(v.core)
  {
    hide Even, Half, Deal, Growing, First, Nth, Dealt;
  }

  // ----- One access

  lemma ClaimKeeps(v: Vars, th: Thread, t: nat, choice: Choice)
    requires Shared(v) && Loaded(v.core, v.windows, th) && th.pc == Free(Exchange) && th.round == v.core.round
    ensures var e := ActFree(v, th, t, choice); Shared(e.vars) && Settled(e.vars.core)
  {
    hide Even, Half, Deal, Growing, Offset, First, Nth;
    GrowingPrefix(v.core.seen, v.future);
    ClaimIsCurrent(v, th);
    FirstBlock(v.core, v.core.round);
    NthSteps(v.core.rank, v.core.round);
  }

  lemma FreeKeeps(v: Vars, th: Thread, t: nat, choice: Choice)
    requires Shared(v) && Loaded(v.core, v.windows, th) && th.pc.Free? && Role(v, th, t)
    ensures var e := ActFree(v, th, t, choice);
            Shared(e.vars) && Loaded(e.vars.core, e.vars.windows, e.thread) && Phase(e.vars.core, e.thread)
            && e.vars.core.seen == v.core.seen && e.vars.future == v.future && e.vars.core.rank == v.core.rank
  {
    hide Even, Half, Deal, Growing, Dealt, Versions, First, Nth, Finished, Closed, Loaded;
    if th.pc == Free(Exchange) && th.round == v.core.round {
      hide Settled;
      ClaimKeeps(v, th, t, choice);
      FreeLoaded(v, th, t, choice);
    } else {
      hide Shared, Settled;
      FreeShared(v, th, t, choice);
      FreeLoaded(v, th, t, choice);
    }
  }

  lemma FreeShared(v: Vars, th: Thread, t: nat, choice: Choice)
    requires Shared(v) && th.pc.Free? && Role(v, th, t) && !(th.pc == Free(Exchange) && th.round == v.core.round)
    ensures var e := ActFree(v, th, t, choice); Shared(e.vars) && e.vars.core == v.core && e.vars.future == v.future
    ensures v.mutex.None? ==> Settled(v.core)
  {
    hide Even, Half, Deal, Growing, Dealt, Versions, First, Nth, Finished, Closed, Settled;
  }

  lemma FreeLoaded(v: Vars, th: Thread, t: nat, choice: Choice)
    requires Loaded(v.core, v.windows, th) && th.pc.Free?
    ensures var e := ActFree(v, th, t, choice); Loaded(e.vars.core, e.vars.windows, e.thread)
  {
    hide First, Even, Half;
    var c, n := v.core, ActFree(v, th, t, choice);
    match th.pc.free
    case Idle =>
    case Release =>
    case JoinLock =>
    case LeaveLock =>
    case CheckExhausted =>
    case Lock =>
    case Claim =>
    case Exchange =>
    case Unclaim =>
  }

  /** What was read is right while the version stands. */
  lemma ReadKeeps(v: Vars, th: Thread)
    requires Shared(v) && Loaded(v.core, v.windows, th) && th.pc.Read?
    ensures Loaded(v.core, v.windows, ActRead(v, th))
  {
    hide Even, Half, Deal, Growing, Dealt, First, Nth, Settled, Closed, Finished;
  }

  /** Under the mutex a window without a block for the round read has none for later rounds. */
  lemma LockedRead(v: Vars, th: Thread)
    requires Shared(v) && Loaded(v.core, v.windows, th) && th.pc == Read(Recheck) && v.core.version == th.version
    requires Settled(v.core) && v.core.window.cap == Capacity(v.core)
    requires th.window.base <= th.round && First(v.core.rank, th.window, th.round) >= th.window.cap
    ensures Closed(v.core.rank, v.core.window, v.core.round) && Finished(v.core.rank, v.core.seen, v.core.round)
        && th.round == v.core.round && th.window.cap == v.core.window.cap
  {
    hide Even, Half, Deal, Growing, Offset, First, Nth;
    GrowingPrefix(v.core.seen, v.future);
    FirstBlock(v.core, th.round);
  }

  lemma ReadPhase(v: Vars, th: Thread)
    requires Shared(v) && Loaded(v.core, v.windows, th) && Phase(v.core, th) && th.pc.Read?
    ensures Phase(v.core, ActRead(v, th))
  {
    hide Even, Half, Deal, Growing, First, Nth, Settled, Closed, Finished, Loaded;
    if th.pc == Read(Recheck) && th.locked && v.core.version == th.version && th.window.base <= th.round
      && First(v.core.rank, th.window, th.round) >= th.window.cap
    {
      LockedRead(v, th);
    }
  }

  lemma ReindexKeeps(v: Vars, th: Thread)
    requires Shared(v) && Loaded(v.core, v.windows, th) && th.pc == Locked(Reindex) && Phase(v.core, th) && th.locked
        && v.future != [] && v.mutex.Some?
    ensures var e := ActLocked(v, th);
            e.vars.core.seen != [] && Shared(e.vars) && Loaded(e.vars.core, e.vars.windows, e.thread)
                && Phase(e.vars.core, e.thread)
            && e.vars.core.seen + e.vars.future == v.core.seen + v.future && e.vars.core.rank == v.core.rank
  {
    hide Even, Half, Deal, Growing, Offset, First, Nth;
    GrowingPrefix(v.core.seen, v.future);
    TurnBase(v.core);
    var seen := v.core.seen + [v.future[0]];
    assert seen + v.future[1..] == v.core.seen + v.future;
    DealPrefix(v.core.seen, [v.future[0]], v.core.rank.size);
    assert seen[..|v.core.seen|] == v.core.seen;
    assert v.core.seen[..|v.core.seen| - 1] == seen[..|v.core.seen| - 1];
  }

  /** The capacity that was indexed before the iteration is published in the window as it is. */
  lemma CompareKeeps(c: Core, th: Thread)
    requires Settled(c) && c.window.cap != Capacity(c)
    ensures Extending(c, th.(pc := Publish(PubLoad), extend := true))
  {
    hide Even, Half, Deal, Offset, Nth;
  }

  lemma LockedKeeps(v: Vars, th: Thread, t: nat)
    requires Shared(v) && Loaded(v.core, v.windows, th) && Role(v, th, t) && Phase(v.core, th)
    requires th.pc.Locked? && (th.pc == Locked(LeaveCount) ==> !v.departed)
    ensures var e := ActLocked(v, th);
            e.vars.core.seen != [] && Shared(e.vars) && Loaded(e.vars.core, e.vars.windows, e.thread)
                && Phase(e.vars.core, e.thread)
            && e.vars.core.seen + e.vars.future == v.core.seen + v.future && e.vars.core.rank == v.core.rank
  {
    hide Even, Half, Deal, Growing, Dealt, Versions, First, Nth, Finished, Settled, Closed, InWindow, Turning, Extending;
    match th.pc.locked
    case Reindex =>
      if v.future != [] {
        ReindexKeeps(v, th);
      }
    case CompareCapacity =>
      if v.core.window.cap != Capacity(v.core) {
        CompareKeeps(v.core, th);
      }
    case JoinCheck =>
    case JoinCount =>
    case LeaveCount =>
    case LeaveCheck =>
    case LeaveCheckDeparted =>
    case LeaveDepart =>
    case CheckLocked =>
    case Drain =>
    case StoreExhausted =>
    case UnlockLeave =>
    case UnlockLoop =>
  }

  lemma PublishLoaded(v: Vars, th: Thread)
    requires v.core.seen != [] && th.pc.Publish? && VersionPhase(v.core, th, th.pc.publish) && th.round <= v.core.round
        && th.version <= v.core.version
    ensures var e := ActPublish(v, th); Loaded(e.vars.core, e.vars.windows, e.thread)
  {
    hide Even, Half, First, Blocks, Closed, Validated;
    Halves(v.core.version);
    Halves(th.version);
    match th.pc.publish
    case PubLoad =>
    case PubBegin =>
    case PubLoadStart =>
    case PubBefore =>
    case PubStart =>
    case PubBase =>
    case PubCapacity =>
    case PubEnd =>
  }

  lemma ExtendKeeps(v: Vars, th: Thread)
    requires Shared(v) && Phase(v.core, th) && th.pc.Publish? && th.extend && th.locked && v.mutex.Some?
    ensures var e := ActPublish(v, th);
            Shared(e.vars) && Phase(e.vars.core, e.thread)
            && e.vars.core.seen == v.core.seen && e.vars.future == v.future && e.vars.core.rank == v.core.rank
  {
    hide Even, Half, Deal, Growing, Offset, First, Nth, Blocks;
    Halves(v.core.version);
    Halves(th.version);
  }

  /** The blocks of the window left behind, added to those before it. */
  lemma TurnBlocks(c: Core, th: Thread, future: seq<nat>)
    requires c.seen != [] && Growing(c.seen + future) && th.pc == Publish(PubBefore) && Turning(c, th)
    ensures var n := |c.seen| - 1;
            && th.window.start <= th.window.cap
            && |Deal(c.seen[..n], c.rank.size)| == c.window.before + Blocks(th.window.start, th.window.cap, c.rank.size)
  {
    hide Even, Half, Deal, Growing, Offset, Nth, Blocks;
    GrowingPrefix(c.seen, future);
    var n := |c.seen| - 1;
    assert c.seen[..n] + [c.seen[n]] == c.seen;
    GrowingPrefix(c.seen[..n], [c.seen[n]]);
    WindowBlock(c.seen[..n], c.rank.size, 0);
    assert c.seen[..n][..n - 1] == c.seen[..n - 1];
  }

  lemma TurnPhase(c: Core, v: Vars, th: Thread)
    requires c == v.core && c.seen != [] && Growing(c.seen + v.future) && th.pc.Publish? && Turning(c, th) && !th.extend
        && th.locked
    ensures var e := ActPublish(v, th); Phase(e.vars.core, e.thread)
  {
    hide Even, Half, Deal, Growing, Offset, First, Nth, Blocks, Finished, Closed;
    Halves(v.core.version);
    Halves(th.version);
    match th.pc.publish
    case PubLoad => hide InWindow;
    case PubBegin => hide InWindow;
    case PubLoadStart => hide InWindow;
    case PubBefore => TurnBlocks(c, th, v.future);
    case PubStart =>
    case PubBase =>
    case PubCapacity => hide InWindow;
    case PubEnd => hide InWindow;
  }

  lemma TurnShared(v: Vars, th: Thread)
    requires Shared(v) && th.pc.Publish? && Turning(v.core, th) && !th.extend && th.locked && v.mutex.Some?
    ensures var e := ActPublish(v, th);
            Shared(e.vars) && e.vars.core.seen == v.core.seen && e.vars.future == v.future && e.vars.core.rank == v.core.rank
  {
    hide Even, Half, Deal, Growing, Offset, First, Nth, Blocks, Dealt, Finished, Closed, InWindow;
    Halves(v.core.version);
    Halves(th.version);
  }

  /** What a thread holds besides the window. */
  lemma RoleKeeps(v: Vars, th: Thread, t: nat, choice: Choice)
    requires v.core.seen != [] && Role(v, th, t)
    ensures var e := Act(v, th, t, choice); Role(e.vars, e.thread, t)
  {
    hide Even, Half, First, Blocks;
    if th.pc.Free? {
      FreeRole(v, th, t, choice);
    } else if th.pc.Locked? {
      LockedRole(v, th, t);
    } else {
    }
  }

  lemma FreeRole(v: Vars, th: Thread, t: nat, choice: Choice)
    requires v.core.seen != [] && Role(v, th, t) && th.pc.Free?
    ensures var e := ActFree(v, th, t, choice); Role(e.vars, e.thread, t)
  {
    match th.pc.free
    case Idle =>
    case Release =>
    case JoinLock =>
    case LeaveLock =>
    case CheckExhausted =>
    case Lock =>
    case Claim =>
    case Exchange =>
    case Unclaim =>
  }

  lemma LockedRole(v: Vars, th: Thread, t: nat)
    requires v.core.seen != [] && Role(v, th, t) && th.pc.Locked?
    ensures var e := ActLocked(v, th); Role(e.vars, e.thread, t)
  {
    match th.pc.locked
    case JoinCheck =>
    case JoinCount =>
    case LeaveCount =>
    case LeaveCheck =>
    case LeaveCheckDeparted =>
    case LeaveDepart =>
    case CheckLocked =>
    case CompareCapacity =>
    case Drain =>
    case Reindex =>
    case StoreExhausted =>
    case UnlockLeave =>
    case UnlockLoop =>
  }

  // ----- What one thread's access leaves to the others

  lemma OtherFree(v: Vars, th: Thread, t: nat, choice: Choice, other: Thread, u: nat)
    requires v.core.seen != [] && Shared(v) && Loaded(v.core, v.windows, th) && th.pc.Free? && Role(v, th, t) && t != u
    requires Loaded(v.core, v.windows, other) && Role(v, other, u) && Phase(v.core, other)
    ensures var e := ActFree(v, th, t, choice).vars;
            e.core.seen != [] && Loaded(e.core, e.windows, other) && Role(e, other, u) && Phase(e.core, other)
  {
    hide Even, Half, Deal, Growing, Dealt, Versions, First, Nth, Finished, Closed, Settled, Shared;
    if th.pc == Free(Exchange) && th.round == v.core.round {
      ClaimIsCurrent(v, th);
      ClaimKeeps(v, th, t, choice);
      OtherClaim(v.core, other);
    } else {
      hide Loaded, Phase;
    }
  }

  /** While a claim can succeed, nobody is in the critical part of a reindex. */
  lemma OtherClaim(c: Core, other: Thread)
    requires c.seen != [] && Phase(c, other) && Even(c.version) && !Closed(c.rank, c.window, c.round)
    requires other.pc.Locked? || other.pc.Publish? ==> other.locked
    ensures !InReindex(other) && !other.pc.Publish? && other.pc != Locked(Drain)
    ensures other.locked ==> Settled(c)
  {
    hide Deal, First, Nth, Finished, Closed, InWindow;
    Halves(other.version);
  }

  lemma OtherLocked(v: Vars, th: Thread, t: nat, other: Thread, u: nat)
    requires v.core.seen != [] && th.pc.Locked? && Role(v, th, t) && t != u
    requires Loaded(v.core, v.windows, other) && Role(v, other, u) && Phase(v.core, other)
    ensures var e := ActLocked(v, th).vars;
            e.core.seen != [] && Loaded(e.core, e.windows, other) && Role(e, other, u) && Phase(e.core, other)
  {
    hide Even, Half, Deal, First, Nth, Finished, Closed, Settled, Turning, Extending;
    match th.pc.locked
    case Reindex =>
    case _ =>
  }

  lemma OtherPublish(v: Vars, th: Thread, t: nat, other: Thread, u: nat)
    requires Shared(v) && th.pc.Publish? && Role(v, th, t) && VersionPhase(v.core, th, th.pc.publish) && t != u
    requires Loaded(v.core, v.windows, other) && Role(v, other, u) && Phase(v.core, other)
    ensures var e := ActPublish(v, th).vars;
            e.core.seen != [] && Loaded(e.core, e.windows, other) && Role(e, other, u) && Phase(e.core, other)
  {
    hide Even, Half, Deal, Growing, Dealt, First, Nth, Finished, Settled, Turning, Extending, Blocks;
    Halves(v.core.version);
    Halves(th.version);
    match th.pc.publish
    case PubLoad =>
    case PubBegin =>
    case PubLoadStart =>
    case PubBefore =>
    case PubStart =>
    case PubBase =>
    case PubCapacity =>
    case PubEnd =>
  }

  // ----- All threads

  /** What is counted as in flight: a held batch, or a claim to be exchanged or given back. */
  predicate Claims(th: Thread) {
    th.holding || th.pc == Free(Exchange) || th.pc == Free(Unclaim)
  }

  /** What is counted as active: a thread that joined and did not yet count itself out. */
  predicate Joined(th: Thread) {
    th.participating || th.pc == Free(LeaveLock) || th.pc == Locked(LeaveCount)
  }

  ghost predicate Knows(v: Vars, th: Thread, t: nat)
    requires v.core.seen != []
  {
    Loaded(v.core, v.windows, th) && Role(v, th, t) && Phase(v.core, th)
  }

  /** While a thread reindexes nobody holds a batch. */
  ghost predicate Quiet(s: State) {
    forall t, u :: 0 <= t < |s.threads| && 0 <= u < |s.threads| && InReindex(s.threads[t]) ==> !s.threads[u].holding
  }

  /** Held batches are different claims. */
  ghost predicate Distinct(s: State) {
    forall t, u :: 0 <= t < u < |s.threads| && s.threads[t].holding && s.threads[u].holding ==>
      s.threads[t].place != s.threads[u].place
  }

  ghost predicate Inv(s: State) {
    && s.vars.core.seen != [] && Shared(s.vars)
    && (forall t :: 0 <= t < |s.threads| ==> Knows(s.vars, s.threads[t], t))
    && Quiet(s) && Distinct(s)
    && s.vars.inFlight == CountIf(s.threads, Claims) && s.vars.activeUnits == CountIf(s.threads, Joined)
    && (s.vars.mutex.Some? ==> s.vars.mutex.value < |s.threads|)
  }

  lemma {:induction false} StartInv(rank: Rank, threads: nat, capacity: nat, future: seq<nat>)
    requires Growing([capacity] + future) && rank.worker < rank.workers
    ensures Inv(Start(rank, threads, capacity, future))
  {
    hide Growing;
    var s := Start(rank, threads, capacity, future);
    CountZero(s.threads, Claims);
    CountZero(s.threads, Joined);
    assert s.vars.core.seen[..0] == [];
    DivIs(rank.worker, rank.workers, 0);
    OffsetIs(0, rank.worker, rank.workers, rank.worker);
  }

  predicate Swaps(v: Vars, th: Thread) {
    th.pc == Free(Exchange) && th.round == v.core.round
  }

  /** What an access changes about claims and participation is what it counts. */
  predicate Counts(v: Vars, th: Thread, e: Effect) {
    && e.vars.inFlight == v.inFlight - (if Claims(th) then 1 else 0) + (if Claims(e.thread) then 1 else 0)
    && e.vars.activeUnits == v.activeUnits - (if Joined(th) then 1 else 0) + (if Joined(e.thread) then 1 else 0)
  }

  /** Batches come from exchanges, and reindexing begins when nothing is in flight. */
  predicate Receives(v: Vars, th: Thread, e: Effect) {
    && (!Swaps(v, th) ==> e.vars.log == v.log && (e.thread.holding ==> th.holding && e.thread.place == th.place))
    && (Swaps(v, th) ==> e.vars.log == v.log + [e.thread.batch] && e.thread.place == |v.log| && !InReindex(e.thread))
    && (InReindex(e.thread) && !InReindex(th) ==> v.inFlight == 0)
    && (InReindex(e.thread) ==> e.thread.holding == th.holding)
  }

  lemma FreeCounts(v: Vars, th: Thread, t: nat, choice: Choice)
    requires th.pc.Free? && v.core.seen != [] && Role(v, th, t)
    ensures var e := ActFree(v, th, t, choice); Counts(v, th, e)
  {
    match th.pc.free
    case Idle =>
    case Release =>
    case JoinLock =>
    case LeaveLock =>
    case CheckExhausted =>
    case Lock =>
    case Claim =>
    case Exchange =>
    case Unclaim =>
  }

  lemma LockedCounts(v: Vars, th: Thread, t: nat)
    requires th.pc.Locked? && v.core.seen != [] && Role(v, th, t)
    ensures var e := ActLocked(v, th); Counts(v, th, e)
  {
    match th.pc.locked
    case JoinCheck =>
    case JoinCount =>
    case LeaveCount =>
    case LeaveCheck =>
    case LeaveCheckDeparted =>
    case LeaveDepart =>
    case CheckLocked =>
    case CompareCapacity =>
    case Drain =>
    case Reindex =>
    case StoreExhausted =>
    case UnlockLeave =>
    case UnlockLoop =>
  }

  lemma ActCounts(v: Vars, th: Thread, t: nat, choice: Choice)
    requires v.core.seen != [] && Role(v, th, t)
    ensures Counts(v, th, Act(v, th, t, choice))
  {
    match th.pc
    case Free(_) => hide ActFree; FreeCounts(v, th, t, choice);
    case Read(_) => hide First;
    case Locked(_) => hide ActLocked; LockedCounts(v, th, t);
    case Publish(_) => hide Blocks;
  }

  lemma FreeReceives(v: Vars, th: Thread, t: nat, choice: Choice)
    requires th.pc.Free? && v.core.seen != [] && Role(v, th, t) && v.core.round == |v.log|
    ensures var e := ActFree(v, th, t, choice); Receives(v, th, e)
  {
    match th.pc.free
    case Idle =>
    case Release =>
    case JoinLock =>
    case LeaveLock =>
    case CheckExhausted =>
    case Lock =>
    case Claim =>
    case Exchange =>
    case Unclaim =>
  }

  lemma LockedReceives(v: Vars, th: Thread, t: nat)
    requires th.pc.Locked? && v.core.seen != [] && Role(v, th, t) && v.core.round == |v.log|
    ensures var e := ActLocked(v, th); Receives(v, th, e)
  {
    match th.pc.locked
    case JoinCheck =>
    case JoinCount =>
    case LeaveCount =>
    case LeaveCheck =>
    case LeaveCheckDeparted =>
    case LeaveDepart =>
    case CheckLocked =>
    case CompareCapacity =>
    case Drain =>
    case Reindex =>
    case StoreExhausted =>
    case UnlockLeave =>
    case UnlockLoop =>
  }

  lemma ActReceives(v: Vars, th: Thread, t: nat, choice: Choice)
    requires v.core.seen != [] && Role(v, th, t) && v.core.round == |v.log|
    ensures Receives(v, th, Act(v, th, t, choice))
  {
    match th.pc
    case Free(_) => hide ActFree; FreeReceives(v, th, t, choice);
    case Read(_) => hide First;
    case Locked(_) => hide ActLocked; LockedReceives(v, th, t);
    case Publish(_) => hide Blocks;
  }

  lemma ActMutex(v: Vars, th: Thread, t: nat, choice: Choice)
    requires v.core.seen != []
    ensures var e := Act(v, th, t, choice).vars; e.mutex == v.mutex || e.mutex == None || e.mutex == Some(t)
  {
    hide First, Blocks;
  }

  lemma ActSelf(v: Vars, th: Thread, t: nat, choice: Choice)
    requires v.core.seen != [] && Shared(v) && Knows(v, th, t) && (th.pc == Locked(LeaveCount) ==> !v.departed)
    ensures var e := Act(v, th, t, choice);
            && e.vars.core.seen != [] && Shared(e.vars) && Knows(e.vars, e.thread, t)
            && e.vars.core.seen + e.vars.future == v.core.seen + v.future && e.vars.core.rank == v.core.rank
  {
    hide Shared, Loaded, ActFree, ActRead, ActLocked, ActPublish, Role, Settled, Turning, Extending;
    RoleKeeps(v, th, t, choice);
    match th.pc
    case Free(_) => FreeKeeps(v, th, t, choice);
    case Read(_) => ReadKeeps(v, th); ReadPhase(v, th);
    case Locked(_) => LockedKeeps(v, th, t);
    case Publish(_) => PublishKeeps(v, th, t);
  }

  lemma ActOther(v: Vars, th: Thread, t: nat, choice: Choice, other: Thread, u: nat)
    requires v.core.seen != [] && Shared(v) && Knows(v, th, t) && Knows(v, other, u) && t != u
    ensures var e := Act(v, th, t, choice); e.vars.core.seen != [] && Knows(e.vars, other, u)
  {
    hide Shared, Loaded, ActFree, ActRead, ActLocked, ActPublish, Role, Settled;
    match th.pc
    case Free(_) => OtherFree(v, th, t, choice, other, u);
    case Read(_) =>
    case Locked(_) => OtherLocked(v, th, t, other, u);
    case Publish(_) => OtherPublish(v, th, t, other, u);
  }

  lemma PublishKeeps(v: Vars, th: Thread, t: nat)
    requires Shared(v) && th.pc.Publish? && Loaded(v.core, v.windows, th) && Role(v, th, t) && Phase(v.core, th)
    ensures var e := ActPublish(v, th);
            Shared(e.vars) && Loaded(e.vars.core, e.vars.windows, e.thread) && Phase(e.vars.core, e.thread)
            && e.vars.core.seen == v.core.seen && e.vars.future == v.future && e.vars.core.rank == v.core.rank
  {
    hide Settled, InWindow, Dealt, Finished, Closed, VersionPhase, Versions, ActPublish, First, Nth, Deal, Growing;
    PublishLoaded(v, th);
    if th.extend {
      ExtendKeeps(v, th);
    } else {
      TurnPhase(v.core, v, th);
      TurnShared(v, th);
    }
  }

  lemma StepInv(s: State, t: nat, choice: Choice)
    requires Inv(s)
    ensures Inv(Step(s, t, choice))
    ensures var n := Step(s, t, choice).vars;
            n.core.seen + n.future == s.vars.core.seen + s.vars.future && n.core.rank == s.vars.core.rank
  {
    hide Deal, Growing, Act, Shared, Knows, Quiet, Distinct;
    if t < |s.threads| {
      var th := s.threads[t];
      var n := Step(s, t, choice);
      assert Knows(s.vars, th, t);
      LeaverHasNotDeparted(s, t);
      ActSelf(s.vars, th, t, choice);
      ActCounts(s.vars, th, t, choice);
      ActMutex(s.vars, th, t, choice);
      CountUpdate(s.threads, Claims, t, n.threads[t]);
      CountUpdate(s.threads, Joined, t, n.threads[t]);
      StepQuiet(s, t, choice);
      StepDistinct(s, t, choice);
      forall u | 0 <= u < |s.threads|
        ensures Knows(n.vars, n.threads[u], u)
      {
        if u != t {
          ActOther(s.vars, th, t, choice, s.threads[u], u);
        }
      }
    }
  }

  lemma LeaverHasNotDeparted(s: State, t: nat)
    requires Inv(s) && t < |s.threads|
    ensures Joined(s.threads[t]) ==> !s.vars.departed
    ensures Role(s.vars, s.threads[t], t)
  {
    hide Deal, Growing, Act, Dealt, Versions, Settled, Closed, Quiet, Distinct;
    assert Knows(s.vars, s.threads[t], t);
    CountZero(s.threads, Joined);
  }

  lemma StepQuiet(s: State, t: nat, choice: Choice)
    requires Inv(s)
    ensures Quiet(Step(s, t, choice))
  {
    hide Deal, Growing, Act, Dealt, Versions, Settled, Closed, Distinct, Loaded, Role, Phase;
    if t < |s.threads| {
      var th := s.threads[t];
      var n := Step(s, t, choice);
      CountZero(s.threads, Claims);
      assert Knows(s.vars, th, t);
      ActReceives(s.vars, th, t, choice);
      forall r, u | 0 <= r < |n.threads| && 0 <= u < |n.threads| && InReindex(n.threads[r])
        ensures !n.threads[u].holding
      {
        if Swaps(s.vars, th) && r != t {
          assert Knows(s.vars, s.threads[r], r);
          NoSwap(s.vars, th, t, s.threads[r], r);
        }
      }
    }
  }

  /** A claim does not succeed while another thread reindexes. */
  lemma NoSwap(v: Vars, th: Thread, t: nat, other: Thread, u: nat)
    requires v.core.seen != [] && Shared(v) && Knows(v, th, t) && Knows(v, other, u)
    requires InReindex(other)
    ensures !Swaps(v, th)
  {
    hide Deal, Growing, Dealt, Versions, Settled, Closed, Loaded, Phase;
    if Swaps(v, th) {
      ClaimIsCurrent(v, th);
      OtherClaim(v.core, other);
    }
  }

  lemma StepDistinct(s: State, t: nat, choice: Choice)
    requires Inv(s)
    ensures Distinct(Step(s, t, choice))
  {
    hide Deal, Growing, Act, Shared, Quiet, Loaded, Phase;
    if t < |s.threads| {
      var n := Step(s, t, choice);
      assert Knows(s.vars, s.threads[t], t);
      assert s.vars.core.round == |s.vars.log| by { RoundIsLog(s.vars); }
      ActReceives(s.vars, s.threads[t], t, choice);
      forall r, u | 0 <= r < u < |n.threads| && n.threads[r].holding && n.threads[u].holding
        ensures n.threads[r].place != n.threads[u].place
      {
        assert Knows(s.vars, s.threads[r], r) && Knows(s.vars, s.threads[u], u);
      }
    }
  }

  lemma RoundIsLog(v: Vars)
    requires Shared(v)
    ensures v.core.round == |v.log|
  {
    hide Deal, Growing, Dealt, Versions, Settled, Closed, Finished;
  }

  // ----- Whole runs

  predicate IsStep(s: State, t: nat, choice: Choice, next: State) {
    s.vars.core.seen != [] && next == Step(s, t, choice)
  }

  /** The states that some schedule of the threads leads to. */
  ghost predicate Reachable(s: State, rank: Rank, caps: seq<nat>, steps: nat)
    requires caps != []
    decreases steps
  {
    if steps == 0 then exists threads: nat :: s == Start(rank, threads, caps[0], caps[1..])
    else exists before: State, t: nat, choice: Choice ::
        IsStep(before, t, choice, s) && Reachable(before, rank, caps, steps - 1)
  }

  lemma {:induction false} ReachableInv(s: State, rank: Rank, caps: seq<nat>, steps: nat)
    requires caps != [] && Growing(caps) && rank.worker < rank.workers && Reachable(s, rank, caps, steps)
    ensures Inv(s) && s.vars.core.seen + s.vars.future == caps && s.vars.core.rank == rank
    decreases steps
  {
    hide Inv, Step, Growing;
    if steps == 0 {
      var threads: nat :| s == Start(rank, threads, caps[0], caps[1..]);
      assert [caps[0]] + caps[1..] == caps;
      StartInv(rank, threads, caps[0], caps[1..]);
    } else {
      var before: State, t: nat, choice: Choice :| IsStep(before, t, choice, s) && Reachable(before, rank, caps, steps - 1);
      ReachableInv(before, rank, caps, steps - 1);
      StepInv(before, t, choice);
    }
  }

  /** In every reachable state the k-th batch that the threads of a rank received is block
      `worker + k * workers` of the deal over all windows; what is in flight is what is held or being claimed;
      held batches are different blocks; and exhausted means that the rank's share was handed out. */
  lemma {:induction false} RoundsGivenOnce(s: State, rank: Rank, caps: seq<nat>, steps: nat)
    requires caps != [] && Growing(caps) && rank.worker < rank.workers && Reachable(s, rank, caps, steps)
    ensures s.vars.core.round == |s.vars.log|
    ensures forall k :: 0 <= k < |s.vars.log| ==>
              Nth(rank, k) < |Deal(caps, rank.size)| && s.vars.log[k] == Deal(caps, rank.size)[Nth(rank, k)]
    ensures forall t :: 0 <= t < |s.threads| && s.threads[t].holding ==>
              s.threads[t].place < |s.vars.log| && s.vars.log[s.threads[t].place] == s.threads[t].batch
    ensures Distinct(s) && Quiet(s)
    ensures s.vars.inFlight == CountIf(s.threads, Claims) && s.vars.activeUnits == CountIf(s.threads, Joined)
    ensures s.vars.exhausted ==> Nth(rank, |s.vars.log|) >= |Deal(caps, rank.size)|
  {
    hide Deal, Growing, Reachable, Nth, Versions, Settled, Closed, Loaded, Phase;
    ReachableInv(s, rank, caps, steps);
    DealPrefix(s.vars.core.seen, s.vars.future, rank.size);
    assert s.vars.future == [] ==> s.vars.core.seen == caps;
    forall t | 0 <= t < |s.threads| && s.threads[t].holding
      ensures s.threads[t].place < |s.vars.log| && s.vars.log[s.threads[t].place] == s.threads[t].batch
    {
      assert Knows(s.vars, s.threads[t], t);
    }
  }

  /** A window read while its version stands is one that was published, whole. */
  lemma SeqlockReads(s: State, t: nat)
    requires Inv(s) && t < |s.threads| && s.threads[t].pc == Read(Recheck) && s.vars.core.version == s.threads[t].version
    ensures var th := s.threads[t];
            Half(th.version) < |s.vars.windows| && th.window == s.vars.windows[Half(th.version)] == s.vars.core.window
  {
    hide Deal, Growing, Even, Half, Dealt, Settled, Closed, Quiet, Distinct;
    assert Knows(s.vars, s.threads[t], t);
  }

  /** An exchange that succeeds was decided on the window as it is then, and receives the rank's next block. */
  lemma ClaimsInCurrentWindow(s: State, t: nat)
    requires Inv(s) && t < |s.threads| && Swaps(s.vars, s.threads[t])
    ensures s.threads[t].window == s.vars.core.window && Even(s.vars.core.version)
    ensures var n := Step(s, t, CallNext);
            && Nth(s.vars.core.rank, s.vars.core.round) < |Deal(s.vars.core.seen, s.vars.core.rank.size)|
            && n.threads[t].holding
                && n.threads[t].batch == Deal(s.vars.core.seen, s.vars.core.rank.size)[Nth(s.vars.core.rank, s.vars.core.round)]
  {
    hide Deal, Growing, Even, Half, Versions, Settled, Closed, Quiet, Distinct, Nth;
    var th := s.threads[t];
    assert Knows(s.vars, th, t);
    ClaimIsCurrent(s.vars, th);
    ClaimKeeps(s.vars, th, t, CallNext);
    ActReceives(s.vars, th, t, CallNext);
    var n := ActFree(s.vars, th, t, CallNext);
    assert n.vars.log[s.vars.core.round] == n.thread.batch;
  }

  /** From the check that nothing is in flight until the new window is published, nobody holds a batch and no
      step of any thread hands one out. */
  lemma NoClaimWhileReindexing(s: State, t: nat, u: nat, choice: Choice)
    requires Inv(s) && t < |s.threads| && InReindex(s.threads[t])
    ensures var n := Step(s, u, choice); n.vars.log == s.vars.log && forall w :: 0 <= w < |n.threads| ==>
        !n.threads[w].holding
  {
    hide Deal, Growing, Act, Dealt, Versions, Settled, Closed, Distinct, Loaded, Role, Phase;
    if u < |s.threads| {
      assert Knows(s.vars, s.threads[t], t) && Knows(s.vars, s.threads[u], u);
      NoSwap(s.vars, s.threads[u], u, s.threads[t], t);
      ActReceives(s.vars, s.threads[u], u, choice);
    }
  }

  /** Once a rank departed, none of its threads iterates, holds or claims, and none joins again. */
  lemma DepartedIsFinal(s: State, t: nat, choice: Choice)
    requires Inv(s) && s.vars.departed && t < |s.threads|
    ensures !Joined(s.threads[t]) && !Claims(s.threads[t])
    ensures Step(s, t, choice).vars.departed && Step(s, t, choice).vars.log == s.vars.log
  {
    hide Deal, Growing, Act, Dealt, Versions, Settled, Closed, Distinct, Quiet, Loaded, Phase;
    LeaverHasNotDeparted(s, t);
    assert Knows(s.vars, s.threads[t], t);
    ActReceives(s.vars, s.threads[t], t, choice);
    StaysDeparted(s.vars, s.threads[t], t, choice);
  }

  lemma StaysDeparted(v: Vars, th: Thread, t: nat, choice: Choice)
    requires v.core.seen != []
    ensures v.departed ==> Act(v, th, t, choice).vars.departed
  {
    hide First, Blocks;
  }

  predicate Waits(v: Vars, th: Thread) {
    || th.pc == Free(Idle)
    || (v.mutex.Some? && (th.pc == Free(Lock) || th.pc == Free(JoinLock) || th.pc == Free(LeaveLock)))
    || (th.pc == Locked(Drain) && v.inFlight != 0)
  }

  lemma ActMoves(v: Vars, th: Thread, t: nat)
    requires v.core.seen != [] && !Waits(v, th)
    ensures Act(v, th, t, CallNext).thread.pc != th.pc
  {
    match th.pc
    case Free(_) =>
    case Read(_) => hide First;
    case Locked(_) => hide ActLocked; LockedMoves(v, th);
    case Publish(_) => hide Blocks;
  }

  lemma LockedMoves(v: Vars, th: Thread)
    requires v.core.seen != [] && th.pc.Locked? && !Waits(v, th)
    ensures ActLocked(v, th).thread.pc != th.pc
  {
    match th.pc.locked
    case JoinCheck =>
    case JoinCount =>
    case LeaveCount =>
    case LeaveCheck =>
    case LeaveCheckDeparted =>
    case LeaveDepart =>
    case CheckLocked =>
    case CompareCapacity =>
    case Drain =>
    case Reindex =>
    case StoreExhausted =>
    case UnlockLeave =>
    case UnlockLoop =>
  }

  /** Once no batch is held, a thread in the policy can go on: the protocol does not block itself. */
  lemma NoDeadlock(s: State, t: nat) returns (u: nat)
    requires Inv(s) && t < |s.threads| && s.threads[t].pc != Free(Idle) && forall w :: 0 <= w < |s.threads| ==>
        !s.threads[w].holding
    ensures u < |s.threads| && s.threads[u].pc != Free(Idle) && Step(s, u, CallNext).threads[u].pc != s.threads[u].pc
  {
    hide Deal, Growing, Shared, Distinct, Quiet, Act, Loaded, Phase, Step;
    u := if s.threads[t].pc.Free? && Waits(s.vars, s.threads[t]) then s.vars.mutex.value else t;
    var w := u;
    assert Knows(s.vars, s.threads[w], w);
    if s.threads[w].pc == Locked(Drain) && s.vars.inFlight != 0 {
      CountZero(s.threads, Claims);
      u :| 0 <= u < |s.threads| && Claims(s.threads[u]);
      assert !s.threads[u].holding;
    }
    StepMoves(s, u);
  }

  lemma StepMoves(s: State, u: nat)
    requires s.vars.core.seen != [] && u < |s.threads| && !Waits(s.vars, s.threads[u])
    ensures |Step(s, u, CallNext).threads| == |s.threads| && Step(s, u, CallNext).threads[u].pc != s.threads[u].pc
  {
    hide Act;
    ActMoves(s.vars, s.threads[u], u);
  }

  // ----- Held batches are in the index

  /** A batch of the current window, whose steps are in the index. */
  predicate InCurrent(c: Core, batch: Batch)
    requires c.seen != []
  {
    WindowStart(c.seen, |c.seen| - 1) <= batch.first <= batch.last <= Capacity(c)
  }

  ghost predicate HeldCurrent(s: State)
    requires s.vars.core.seen != []
  {
    forall t :: 0 <= t < |s.threads| && s.threads[t].holding ==> InCurrent(s.vars.core, s.threads[t].batch)
  }

  /** Only a trigger moves the window, only an exchange hands out a batch, and only those two loads change the round. */
  predicate Leaves(v: Vars, th: Thread, e: Effect) {
    && (e.vars.core.seen != v.core.seen ==> th.pc == Locked(Reindex))
    && (e.thread.holding ==> (th.holding && e.thread.batch == th.batch) || Swaps(v, th))
    && (th.pc != Read(LoadRound) && th.pc != Free(Exchange) ==> e.thread.round == th.round)
  }

  lemma ActLeaves(v: Vars, th: Thread, t: nat, choice: Choice)
    requires v.core.seen != []
    ensures Leaves(v, th, Act(v, th, t, choice))
  {
    match th.pc
    case Free(_) => hide ActFree; FreeLeaves(v, th, t, choice);
    case Read(_) => hide First;
    case Locked(_) => hide ActLocked; LockedLeaves(v, th);
    case Publish(_) => hide Blocks;
  }

  lemma FreeLeaves(v: Vars, th: Thread, t: nat, choice: Choice)
    requires v.core.seen != [] && th.pc.Free?
    ensures Leaves(v, th, ActFree(v, th, t, choice))
  {
    match th.pc.free
    case Idle =>
    case Release =>
    case JoinLock =>
    case LeaveLock =>
    case CheckExhausted =>
    case Lock =>
    case Claim =>
    case Exchange =>
    case Unclaim =>
  }

  lemma LockedLeaves(v: Vars, th: Thread)
    requires v.core.seen != [] && th.pc.Locked?
    ensures Leaves(v, th, ActLocked(v, th))
  {
    match th.pc.locked
    case JoinCheck =>
    case JoinCount =>
    case LeaveCount =>
    case LeaveCheck =>
    case LeaveCheckDeparted =>
    case LeaveDepart =>
    case CheckLocked =>
    case CompareCapacity =>
    case Drain =>
    case Reindex =>
    case StoreExhausted =>
    case UnlockLeave =>
    case UnlockLoop =>
  }

  lemma FirstIsInside(rank: Rank, w: Window, round: nat)
    requires w.base <= round
    ensures First(rank, w, round) >= w.start
  {
  }

  lemma ClaimIsInside(v: Vars, th: Thread, t: nat, choice: Choice)
    requires Shared(v) && Loaded(v.core, v.windows, th) && Swaps(v, th)
    ensures var e := ActFree(v, th, t, choice); e.vars.core.seen == v.core.seen && InCurrent(e.vars.core, e.thread.batch)
  {
    hide Even, Half, Deal, Growing, Nth, Dealt, Shared, Loaded, Offset, First, Closed;
    ClaimIsCurrent(v, th);
    FirstIsInside(v.core.rank, th.window, th.round);
  }

  lemma StepHeldCurrent(s: State, t: nat, choice: Choice)
    requires Inv(s) && HeldCurrent(s)
    ensures Step(s, t, choice).vars.core.seen != [] && HeldCurrent(Step(s, t, choice))
  {
    StepInv(s, t, choice);
    hide Deal, Growing, Act, Shared, Distinct, Loaded, Role, Phase, InCurrent;
    if t < |s.threads| {
      var n := Step(s, t, choice);
      assert Knows(s.vars, s.threads[t], t);
      ActLeaves(s.vars, s.threads[t], t, choice);
      if Swaps(s.vars, s.threads[t]) {
        ClaimIsInside(s.vars, s.threads[t], t, choice);
      }
      forall u | 0 <= u < |n.threads| && n.threads[u].holding
        ensures InCurrent(n.vars.core, n.threads[u].batch)
      {
        if n.vars.core.seen == s.vars.core.seen {
          SameCurrent(s.vars.core, n.vars.core, n.threads[u].batch);
        }
      }
    }
  }

  lemma SameCurrent(c: Core, d: Core, batch: Batch)
    requires c.seen != [] && c.seen == d.seen
    ensures InCurrent(c, batch) <==> InCurrent(d, batch)
  {
  }

  /** In every reachable state the steps of a batch that a thread holds are in the current window: the trigger
      runs only when no batch is held. */
  lemma {:induction false} HeldInWindow(s: State, rank: Rank, caps: seq<nat>, steps: nat)
    requires caps != [] && Growing(caps) && rank.worker < rank.workers && Reachable(s, rank, caps, steps)
    ensures s.vars.core.seen != [] && HeldCurrent(s)
    decreases steps
  {
    hide Inv, Step, Growing;
    ReachableInv(s, rank, caps, steps);
    if steps > 0 {
      var before: State, t: nat, choice: Choice :| IsStep(before, t, choice, s) && Reachable(before, rank, caps, steps - 1);
      ReachableInv(before, rank, caps, steps - 1);
      HeldInWindow(before, rank, caps, steps - 1);
      StepHeldCurrent(before, t, choice);
    }
  }

  // ----- All ranks together

  /** Step `step` is in the k-th batch that the threads of rank r received. */
  predicate InBatch(states: seq<State>, r: nat, k: nat, step: nat) {
    r < |states| && k < |states[r].vars.log| && states[r].vars.log[k].first <= step < states[r].vars.log[k].last
  }

  /** A state of each rank, exhausted, that its threads come to in some way. */
  ghost predicate AllExhausted(states: seq<State>, size: Size, workers: Size, caps: seq<nat>)
    requires caps != []
  {
    && |states| == workers
    && forall r :: 0 <= r < workers ==> states[r].vars.exhausted && Comes(states[r], Rank(size, workers, r), caps)
  }

  ghost predicate Comes(s: State, rank: Rank, caps: seq<nat>)
    requires caps != []
  {
    exists steps: nat :: Reachable(s, rank, caps, steps)
  }

  /** What the ranks handed out in all partitions the steps: each step below the last capacity is in exactly one
      batch of one rank. */
  lemma RanksPartition(states: seq<State>, size: Size, workers: Size, caps: seq<nat>, step: nat) returns (r: nat, k: nat)
    requires caps != [] && Growing(caps) && AllExhausted(states, size, workers, caps) && step < caps[|caps| - 1]
    ensures InBatch(states, r, k, step)
    ensures forall q: nat, j: nat :: InBatch(states, q, j, step) ==> q == r && j == k
  {
    hide Deal, Growing, Reachable;
    r, k := StepHasOneOwner(caps, size, workers, step);
    var deal := Deal(caps, size);
    ShareCounts(|deal|, r, workers, k);
    LogIsShare(states, size, workers, caps, r);
    assert deal[r + k * workers].first <= step < deal[r + k * workers].last;
    RoundIsReached(states[r], deal, k, r, workers);
    forall q: nat, j: nat | InBatch(states, q, j, step)
      ensures q == r && j == k
    {
      LogIsShare(states, size, workers, caps, q);
      assert IsShareOf(q + j * workers, q, j, workers);
      assert IsOwner(deal, workers, step, q, j);
    }
  }

  lemma LogIsShare(states: seq<State>, size: Size, workers: Size, caps: seq<nat>, r: nat)
    requires caps != [] && Growing(caps) && AllExhausted(states, size, workers, caps) && r < workers
    ensures var deal, log := Deal(caps, size), states[r].vars.log;
            && r + |log| * workers >= |deal|
            && forall k :: 0 <= k < |log| ==> r + k * workers < |deal| && log[k] == deal[r + k * workers]
  {
    hide Deal, Growing, Reachable;
    assert Comes(states[r], Rank(size, workers, r), caps);
    var steps: nat :| Reachable(states[r], Rank(size, workers, r), caps, steps);
    RoundsGivenOnce(states[r], Rank(size, workers, r), caps, steps);
    forall k | 0 <= k < |states[r].vars.log|
      ensures r + k * workers < |Deal(caps, size)| && states[r].vars.log[k] == Deal(caps, size)[r + k * workers]
    {
      assert Nth(Rank(size, workers, r), k) == r + k * workers;
    }
    assert Nth(Rank(size, workers, r), |states[r].vars.log|) == r + |states[r].vars.log| * workers;
  }

  lemma RoundIsReached(s: State, deal: seq<Batch>, k: nat, r: nat, workers: Size)
    requires r + |s.vars.log| * workers >= |deal| && r + k * workers < |deal|
    ensures k < |s.vars.log|
  {
    MulUp(|s.vars.log|, k, workers);
  }

  // ----- Retries

  /** Whether the window that a thread read is one that it has to read again. */
  predicate Rereads(c: Core, th: Thread) {
    th.pc == Read(Recheck) && (c.version != th.version || th.round < th.window.base)
  }

  /** A thread that goes back to the head of the loop does so because another one got ahead. A version that is odd is
      being changed by a thread that does not wait for anything; a window is read again only if a version was
      published, or a batch claimed, since it was read; and an exchange fails only if a batch was claimed. */
  lemma RetriesMeanProgress(s: State, t: nat)
    requires Inv(s) && t < |s.threads|
    ensures var th, c := s.threads[t], s.vars.core;
            && (th.pc == Read(LoadVersion) && !Even(c.version) ==>
                  && s.vars.mutex.Some? && s.vars.mutex.value != t && s.threads[s.vars.mutex.value].pc.Publish?
                  && !Waits(s.vars, s.threads[s.vars.mutex.value]))
            && (Rereads(c, th) ==> th.version < c.version || th.round < |s.vars.log|)
            && (th.pc == Free(Exchange) && !Swaps(s.vars, th) ==> th.round < |s.vars.log|)
  {
    hide Deal, Growing, Dealt, Versions, Quiet, Distinct, Settled, Closed, Finished, Role, Phase, Even;
    assert Knows(s.vars, s.threads[t], t);
    RoundIsLog(s.vars);
    if s.threads[t].pc == Read(LoadVersion) && !Even(s.vars.core.version) {
      OddIsPublishing(s);
    }
    if s.threads[t].pc == Read(Recheck) && s.threads[t].version == s.vars.core.version {
      BaseIsPast(s);
    }
  }

  lemma OddIsPublishing(s: State)
    requires Inv(s) && !Even(s.vars.core.version)
    ensures s.vars.mutex.Some? && s.vars.mutex.value < |s.threads| && s.threads[s.vars.mutex.value].pc.Publish?
  {
    hide Deal, Growing, Dealt, Versions, Quiet, Distinct, Even, Extending, Turning, Loaded, Closed, Finished, InWindow;
    if s.vars.mutex.Some? {
      assert Knows(s.vars, s.threads[s.vars.mutex.value], s.vars.mutex.value);
    }
  }

  lemma BaseIsPast(s: State)
    requires Inv(s) && Even(s.vars.core.version)
    ensures s.vars.core.window.base <= s.vars.core.round
  {
    hide Deal, Growing, Dealt, Versions, Quiet, Distinct, Loaded, Closed, Finished, InWindow;
    if s.vars.mutex.Some? {
      var u := s.vars.mutex.value;
      assert Knows(s.vars, s.threads[u], u);
      Halves(s.threads[u].version);
    }
  }

  /** A run of the threads. */
  ghost predicate IsRun(states: seq<State>, moves: seq<(nat, Choice)>) {
    && |states| == |moves| + 1
    && forall i :: 0 <= i < |moves| ==>
         moves[i].0 < |states[i].threads| && IsStep(states[i], moves[i].0, moves[i].1, states[i + 1])
  }

  /** The thread loads the round in the first step, and neither again nor exchanges it before step n. */
  ghost predicate OneRound(states: seq<State>, moves: seq<(nat, Choice)>, t: nat, n: nat)
    requires IsRun(states, moves) && n <= |moves|
  {
    && n > 0 && moves[0].0 == t && states[0].threads[t].pc == Read(LoadRound)
    && forall i :: 0 < i < n && moves[i].0 == t && t < |states[i].threads| ==>
         states[i].threads[t].pc != Read(LoadRound) && states[i].threads[t].pc != Free(Exchange)
  }

  lemma {:induction false} RoundStays(states: seq<State>, moves: seq<(nat, Choice)>, t: nat, n: nat)
    requires IsRun(states, moves) && n <= |moves| && Inv(states[0]) && OneRound(states, moves, t, n)
    ensures Inv(states[n]) && t < |states[n].threads| && states[n].threads[t].round == |states[0].vars.log|
  {
    hide Inv, Step;
    var i := n - 1;
    if n == 1 {
      assert IsStep(states[0], moves[0].0, moves[0].1, states[1]);
      StepInv(states[0], t, moves[0].1);
      StepLoads(states[0], t, moves[0].1);
    } else {
      RoundStays(states, moves, t, i);
      assert IsStep(states[i], moves[i].0, moves[i].1, states[i + 1]);
      StepInv(states[i], moves[i].0, moves[i].1);
      StepKeepsRound(states[i], moves[i].0, moves[i].1, t);
    }
  }

  lemma StepLoads(s: State, t: nat, choice: Choice)
    requires Inv(s) && t < |s.threads| && s.threads[t].pc == Read(LoadRound)
    ensures var n := Step(s, t, choice); |n.threads| == |s.threads| && n.threads[t].round == |s.vars.log|
  {
    hide Shared, Quiet, Distinct;
    RoundIsLog(s.vars);
  }

  lemma StepKeepsRound(s: State, u: nat, choice: Choice, t: nat)
    requires s.vars.core.seen != [] && t < |s.threads|
    requires u == t ==> s.threads[t].pc != Read(LoadRound) && s.threads[t].pc != Free(Exchange)
    ensures var n := Step(s, u, choice); |n.threads| == |s.threads| && n.threads[t].round == s.threads[t].round
  {
    hide Act;
    if u == t {
      ActLeaves(s.vars, s.threads[t], t, choice);
    }
  }

  /** Between the load of a round and the failing exchange of it, other threads' exchanges succeeded. */
  lemma FailureMeansClaims(states: seq<State>, moves: seq<(nat, Choice)>, t: nat, n: nat)
    requires IsRun(states, moves) && n <= |moves| && Inv(states[0]) && OneRound(states, moves, t, n)
    requires t < |states[n].threads| && states[n].threads[t].pc == Free(Exchange) && !Swaps(states[n].vars, states[n].threads[t])
    ensures |states[n].vars.log| > |states[0].vars.log|
  {
    hide Inv, Step;
    RoundStays(states, moves, t, n);
    RetriesMeanProgress(states[n], t);
  }
}
