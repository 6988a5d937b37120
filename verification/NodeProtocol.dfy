/** The ranks of one node: one indexes for all of them, into windows of rows and a catalog that they share, one
    window for each stream broker. A rank that used up its steps sends a release (or, leaving early, a departure)
    to the indexing rank and runs the same trigger, in which it waits for each publication by its window's
    sequence number. One message or shared access per step; the ranks interleave in any way. */
module NodeProtocol {

  datatype Message = Release | Departed

  /** What a window holds: the publications are numbered over all windows. */
  datatype Content = Dirty | Publication(number: nat)

  datatype PeerPc =
    | Idle                 // iterates over the current windows
    | InTrigger(k: nat)    // released them; k publications of this trigger were copied
    | Copying(k: nat)      // saw the sequence number of the next one
    | Exhausted
    | Out                  // departed

  /** A rank that does not index, with its channel to the one that does. */
  datatype Peer = Peer(
    pc: PeerPc,
    epoch: nat,              // the triggers it finished
    seen: seq<nat>,          // its count of publications, for each window
    copies: seq<Content>,    // what it copied, for each publication
    channel: seq<Message>,
    gone: bool)              // the indexer's note that it departed

  datatype IndexerPc =
    | Iterating
    | LeaveCheck             // departed: go on for the others?
    | Receive(r: nat)        // in release_window, at rank r
    | Triggering(k: nat)     // k publications made
    | Writing(k: nat)        // rewriting a window's rows and catalog
    | Written(k: nat)
    | Finished               // exhausted
    | Left

  /** What the triggers will do: the windows that each one publishes, in order. Only the last returns false. */
  datatype Plan = Plan(windows: nat, pubs: seq<seq<nat>>)

  datatype State = State(
    plan: Plan,
    peers: seq<Peer>,
    pc: IndexerPc,
    leaving: bool,
    epoch: nat,
    published: nat,          // the publications made so far
    numbers: seq<nat>,       // the sequence number in each window
    content: seq<Content>)

  /** What a rank does when it is free to choose. */
  datatype Choice = Next | Leave

  datatype Action = OfPeer(r: nat, choice: Choice) | OfIndexer(choice: Choice)

  predicate HasPub(plan: Plan, n: nat, k: nat) {
    n < |plan.pubs| && k < |plan.pubs[n]| && plan.pubs[n][k] < plan.windows
  }

  function PeerStep(s: State, p: Peer, choice: Choice): Peer {
    match p.pc
    case Idle =>
      if choice.Next? then p.(pc := InTrigger(0), channel := p.channel + [Release])
      else p.(pc := Out, channel := p.channel + [Departed])
    case InTrigger(k) =>
      if HasPub(s.plan, p.epoch, k) then
        var w := s.plan.pubs[p.epoch][k];
        if w < |p.seen| && w < |s.numbers| && s.numbers[w] >= p.seen[w] + 1 then p.(pc := Copying(k)) else p
      else p.(pc := if p.epoch + 1 < |s.plan.pubs| then Idle else Exhausted, epoch := p.epoch + 1)
    case Copying(k) =>
      if HasPub(s.plan, p.epoch, k) && s.plan.pubs[p.epoch][k] < |p.seen| && s.plan.pubs[p.epoch][k] < |s.content| then
        var w := s.plan.pubs[p.epoch][k];
        p.(pc := InTrigger(k + 1), seen := p.seen[w := p.seen[w] + 1], copies := p.copies + [s.content[w]])
      else p
    case _ => p
  }

  predicate OthersIterating(s: State) {
    exists r :: 0 <= r < |s.peers| && !s.peers[r].gone
  }

  function IndexerStep(s: State, choice: Choice): State {
    match s.pc
    case Iterating => if choice.Next? then s.(pc := Receive(0)) else s.(pc := LeaveCheck, leaving := true)
    case LeaveCheck => s.(pc := if OthersIterating(s) then Receive(0) else Left)
    case Receive(r) =>
      if r >= |s.peers| then s.(pc := if s.leaving && !OthersIterating(s) then Left else Triggering(0))
      else if s.peers[r].gone then s.(pc := Receive(r + 1))
      else if s.peers[r].channel == [] then s
      else
        var p := s.peers[r];
        s.(pc := Receive(r + 1), peers := s.peers[r := p.(channel := p.channel[1..], gone := p.channel[0].Departed?)])
    case Triggering(k) =>
      if HasPub(s.plan, s.epoch, k) && s.plan.pubs[s.epoch][k] < |s.content| then
        s.(pc := Writing(k), content := s.content[s.plan.pubs[s.epoch][k] := Dirty])
      else
        s.(pc := if s.epoch + 1 >= |s.plan.pubs| then Finished else if s.leaving then LeaveCheck
            else Iterating, epoch := s.epoch + 1)
    case Writing(k) =>
      if HasPub(s.plan, s.epoch, k) && s.plan.pubs[s.epoch][k] < |s.content| then
        s.(pc := Written(k), content := s.content[s.plan.pubs[s.epoch][k] := Publication(s.published + 1)])
      else s
    case Written(k) =>
      if HasPub(s.plan, s.epoch, k) && s.plan.pubs[s.epoch][k] < |s.numbers| then
        var w := s.plan.pubs[s.epoch][k];
        s.(pc := Triggering(k + 1), numbers := s.numbers[w := s.numbers[w] + 1], published := s.published + 1)
      else s
    case _ => s
  }

  function Step(s: State, a: Action): State {
    match a
    case OfPeer(r, choice) => if r < |s.peers| then s.(peers := s.peers[r := PeerStep(s, s.peers[r], choice)]) else s
    case OfIndexer(choice) => IndexerStep(s, choice)
  }

  function Start(plan: Plan, peers: nat): State {
    State(plan, seq(peers, _ => Peer(Idle, 0, seq(plan.windows, _ => 0), [], [], false)), Iterating, false, 0, 0,
          seq(plan.windows, _ => 0), seq(plan.windows, _ => Publication(0)))
  }

  function Run(s: State, actions: seq<Action>): State {
    if actions == [] then s else Step(Run(s, actions[..|actions| - 1]), actions[|actions| - 1])
  }

  // ----- All publications, one after another

  ghost predicate Proper(plan: Plan) {
    plan.pubs != [] && forall n, k :: 0 <= n < |plan.pubs| && 0 <= k < |plan.pubs[n]| ==> HasPub(plan, n, k)
  }

  /** The publications of the first n triggers. */
  function Total(plan: Plan, n: nat): nat
    requires n <= |plan.pubs|
  {
    if n == 0 then 0 else Total(plan, n - 1) + |plan.pubs[n - 1]|
  }

  /** The windows of the publications of the first n triggers, in order. */
  function Flat(plan: Plan, n: nat): (r: seq<nat>)
    requires n <= |plan.pubs|
    ensures |r| == Total(plan, n)
  {
    if n == 0 then [] else Flat(plan, n - 1) + plan.pubs[n - 1]
  }

  function All(plan: Plan): seq<nat> {
    Flat(plan, |plan.pubs|)
  }

  lemma {:induction false} FlatPrefix(plan: Plan, n: nat, m: nat)
    requires n <= m <= |plan.pubs|
    ensures Flat(plan, n) <= Flat(plan, m)
  {
    if n < m {
      FlatPrefix(plan, n, m - 1);
    }
  }

  lemma PubAt(plan: Plan, n: nat, k: nat)
    requires n < |plan.pubs| && k < |plan.pubs[n]|
    ensures Total(plan, n) + k < |All(plan)| && All(plan)[Total(plan, n) + k] == plan.pubs[n][k]
  {
    FlatPrefix(plan, n + 1, |plan.pubs|);
    assert Flat(plan, n + 1)[Total(plan, n) + k] == plan.pubs[n][k];
  }

  lemma {:induction false} TotalGrows(plan: Plan, n: nat, m: nat)
    requires n < m <= |plan.pubs|
    ensures Total(plan, n) + |plan.pubs[n]| <= Total(plan, m)
  {
    if n < m - 1 {
      TotalGrows(plan, n, m - 1);
    }
  }

  lemma TotalNext(plan: Plan, n: nat)
    requires n < |plan.pubs|
    ensures Total(plan, n + 1) == Total(plan, n) + |plan.pubs[n]|
  {
  }

  /** How many of the first n publications are of a window, */
  function Counted(all: seq<nat>, w: nat, n: nat): nat
    requires n <= |all|
  {
    if n == 0 then 0 else Counted(all, w, n - 1) + (if all[n - 1] == w then 1 else 0)
  }

  /** and which is the last of them. */
  function LastOf(all: seq<nat>, w: nat, n: nat): Content
    requires n <= |all|
  {
    if n == 0 then Publication(0) else if all[n - 1] == w then Publication(n) else LastOf(all, w, n - 1)
  }

  function Numbers(plan: Plan, n: nat): (r: seq<nat>)
    requires n <= |All(plan)|
    ensures |r| == plan.windows && forall w :: 0 <= w < plan.windows ==> r[w] == Counted(All(plan), w, n)
  {
    seq(plan.windows, w requires 0 <= w < plan.windows => Counted(All(plan), w, n))
  }

  function Contents(plan: Plan, n: nat): (r: seq<Content>)
    requires n <= |All(plan)|
    ensures |r| == plan.windows && forall w :: 0 <= w < plan.windows ==> r[w] == LastOf(All(plan), w, n)
  {
    seq(plan.windows, w requires 0 <= w < plan.windows => LastOf(All(plan), w, n))
  }

  lemma NextPublication(plan: Plan, n: nat)
    requires n < |All(plan)| && All(plan)[n] < plan.windows
    ensures var w := All(plan)[n];
            && Numbers(plan, n + 1) == Numbers(plan, n)[w := Numbers(plan, n)[w] + 1]
            && Contents(plan, n + 1) == Contents(plan, n)[w := Dirty][w := Publication(n + 1)]
  {
  }

  lemma {:induction false} CountedGrows(all: seq<nat>, w: nat, n: nat, m: nat)
    requires n <= m <= |all|
    ensures Counted(all, w, n) <= Counted(all, w, m)
    ensures n < m && all[n] == w ==> Counted(all, w, n) < Counted(all, w, m)
  {
    if n < m {
      CountedGrows(all, w, n, m - 1);
    }
  }

  lemma {:induction false} LastStays(all: seq<nat>, q: nat, n: nat)
    requires q < n <= |all| && forall i :: q < i < n ==> all[i] != all[q]
    ensures LastOf(all, all[q], n) == Publication(q + 1)
  {
    if q + 1 < n {
      LastStays(all, q, n - 1);
    }
  }

  /** The releases that a rank sent. */
  function Sent(p: Peer): nat {
    if p.pc.InTrigger? || p.pc.Copying? then p.epoch + 1 else p.epoch
  }

  /** Whether the indexer received from rank r for the trigger at hand. */
  predicate Past(s: State, r: nat) {
    s.pc.Triggering? || s.pc.Writing? || s.pc.Written? || (s.pc.Receive? && s.pc.r > r)
  }

  function Consumed(s: State, r: nat): nat {
    if Past(s, r) then s.epoch + 1 else s.epoch
  }

  /** The messages in flight from a rank. */
  function Fifo(releases: nat, out: bool): seq<Message> {
    if releases == 0 then if out then [Departed] else [] else [Release] + Fifo(releases - 1, out)
  }

  lemma {:induction false} FifoPush(releases: nat, m: Message)
    ensures Fifo(releases, false) + [m] == if m.Release? then Fifo(releases + 1, false) else Fifo(releases, true)
  {
    if releases > 0 {
      FifoPush(releases - 1, m);
      assert Fifo(releases, false) + [m] == [Release] + (Fifo(releases - 1, false) + [m]);
    } else {
      assert Fifo(0, false) + [m] == [m] && Fifo(1, false) == [Release];
    }
  }

  predicate Count(plan: Plan, epoch: nat, k: nat, published: nat) {
    epoch < |plan.pubs| && k <= |plan.pubs[epoch]| && published == Total(plan, epoch) + k
  }

  /** A rank's own counters. */
  predicate PeerCounts(plan: Plan, p: Peer) {
    && |p.copies| <= |All(plan)| && p.seen == Numbers(plan, |p.copies|)
    && match p.pc
       case Idle => Count(plan, p.epoch, 0, |p.copies|)
       case InTrigger(k) => Count(plan, p.epoch, k, |p.copies|)
       case Copying(k) => Count(plan, p.epoch, k, |p.copies|) && k < |plan.pubs[p.epoch]|
       case Exhausted => p.epoch == |plan.pubs| && |p.copies| == |All(plan)|
       case Out => Count(plan, p.epoch, 0, |p.copies|)
  }

  /** A rank against the indexer. */
  predicate PeerInv(s: State, p: Peer, r: nat) {
    && PeerCounts(s.plan, p)
    && |p.copies| <= s.published && (p.pc.Copying? ==> |p.copies| < s.published)
    && (p.gone ==> p.pc.Out? && p.channel == [])
    && (!p.gone ==> Consumed(s, r) <= Sent(p) && p.channel == Fifo(Sent(p) - Consumed(s, r), p.pc.Out?))
  }

  predicate WindowsHold(s: State) {
    && s.published <= |All(s.plan)| && s.numbers == Numbers(s.plan, s.published)
    && (s.pc.Writing? || s.pc.Written? ==> s.published < |All(s.plan)| && All(s.plan)[s.published] < s.plan.windows)
    && s.content == if s.pc.Writing? then Contents(s.plan, s.published)[All(s.plan)[s.published] := Dirty]
                    else if s.pc.Written? then Contents(s.plan, s.published + 1)
                    else Contents(s.plan, s.published)
  }

  predicate IndexerInv(s: State) {
    && WindowsHold(s)
    && match s.pc
       case Iterating => Count(s.plan, s.epoch, 0, s.published)
       case LeaveCheck => Count(s.plan, s.epoch, 0, s.published)
       case Receive(r) => Count(s.plan, s.epoch, 0, s.published) && r <= |s.peers|
       case Triggering(k) => Count(s.plan, s.epoch, k, s.published)
       case Writing(k) => Count(s.plan, s.epoch, k, s.published) && k < |s.plan.pubs[s.epoch]|
       case Written(k) => Count(s.plan, s.epoch, k, s.published) && k < |s.plan.pubs[s.epoch]|
       case Finished => s.epoch == |s.plan.pubs| && s.published == |All(s.plan)|
       case Left => !OthersIterating(s)
  }

  ghost predicate Inv(s: State) {
    Proper(s.plan) && IndexerInv(s) && forall r :: 0 <= r < |s.peers| ==> PeerInv(s, s.peers[r], r)
  }

  /** A rank sees the number of its next publication exactly when the indexer made it, in whatever window. */
  lemma SeesWhenPublished(s: State, p: Peer, k: nat)
    requires Proper(s.plan) && WindowsHold(s) && PeerCounts(s.plan, p) && p.pc == InTrigger(k)
    requires p.epoch < |s.plan.pubs| && k < |s.plan.pubs[p.epoch]|
    ensures var w := s.plan.pubs[p.epoch][k];
            && w < |p.seen| && w < |s.numbers| && HasPub(s.plan, p.epoch, k)
            && (s.numbers[w] >= p.seen[w] + 1 <==> |p.copies| < s.published)
  {
    hide Total, All;
    assert HasPub(s.plan, p.epoch, k);
    PubAt(s.plan, p.epoch, k);
    var w := s.plan.pubs[p.epoch][k];
    if |p.copies| < s.published {
      CountedGrows(All(s.plan), w, |p.copies|, s.published);
    } else {
      CountedGrows(All(s.plan), w, s.published, |p.copies|);
    }
  }

  lemma PeerStepInv(s: State, r: nat, choice: Choice)
    requires Inv(s) && r < |s.peers|
    ensures PeerInv(s, PeerStep(s, s.peers[r], choice), r)
  {
    hide Total, All, Fifo, Numbers, Contents, Counted, LastOf, WindowsHold;
    var p := s.peers[r];
    assert PeerInv(s, p, r);
    match p.pc
    case Idle =>
      if !p.gone {
        FifoPush(Sent(p) - Consumed(s, r), if choice.Next? then Release else Departed);
      }
    case InTrigger(k) =>
      if k < |s.plan.pubs[p.epoch]| {
        SeesWhenPublished(s, p, k);
      } else {
        TotalNext(s.plan, p.epoch);
        AllIsTotal(s.plan);
      }
    case Copying(k) =>
      assert HasPub(s.plan, p.epoch, k);
      PubAt(s.plan, p.epoch, k);
      NextPublication(s.plan, |p.copies|);
      WindowsExist(s);
    case Exhausted =>
    case Out =>
  }

  lemma AllIsTotal(plan: Plan)
    ensures |All(plan)| == Total(plan, |plan.pubs|)
  {
  }

  lemma WindowsExist(s: State)
    requires WindowsHold(s)
    ensures |s.numbers| == |s.content| == s.plan.windows && s.published <= |All(s.plan)|
  {
  }

  lemma IndexerStepInv(s: State, choice: Choice)
    requires Inv(s)
    ensures Inv(IndexerStep(s, choice))
  {
    IndexerKeepsItself(s, choice);
    hide PeerInv, IndexerInv, Proper;
    var n := IndexerStep(s, choice);
    forall r | 0 <= r < |s.peers|
      ensures PeerInv(n, n.peers[r], r)
    {
      IndexerKeepsPeer(s, choice, r);
    }
  }

  lemma IndexerKeepsItself(s: State, choice: Choice)
    requires Inv(s)
    ensures IndexerInv(IndexerStep(s, choice)) && IndexerStep(s, choice).plan == s.plan
        && |IndexerStep(s, choice).peers| == |s.peers|
  {
    hide Total, All, Fifo, PeerInv, Counted, LastOf, Numbers, Contents, OthersIterating;
    if (s.pc.Triggering? || s.pc.Writing? || s.pc.Written?) && s.pc.k < |s.plan.pubs[s.epoch]| {
      PublishKeeps(s, choice, s.pc.k);
    } else if s.pc.Triggering? {
      TotalNext(s.plan, s.epoch);
      AllIsTotal(s.plan);
    } else {
      hide WindowsHold, Count;
      SameWindows(s, choice);
      if s.pc.LeaveCheck? || (s.pc.Receive? && s.pc.r >= |s.peers|) {
        SameOthers(s, IndexerStep(s, choice));
      }
    }
  }

  lemma PublishKeeps(s: State, choice: Choice, k: nat)
    requires Proper(s.plan) && IndexerInv(s) && (s.pc == Triggering(k) || s.pc == Writing(k) || s.pc == Written(k))
    requires k < |s.plan.pubs[s.epoch]|
    ensures IndexerInv(IndexerStep(s, choice))
  {
    hide Total, All, Proper, Numbers, Contents, OthersIterating;
    NextWindow(s, k);
  }

  lemma SameWindows(s: State, choice: Choice)
    requires IndexerInv(s) && !s.pc.Triggering? && !s.pc.Writing? && !s.pc.Written?
    ensures WindowsHold(IndexerStep(s, choice))
  {
    hide All, Numbers, Contents, OthersIterating;
  }

  lemma SameOthers(s: State, n: State)
    requires n.peers == s.peers
    ensures OthersIterating(n) <==> OthersIterating(s)
  {
  }

  lemma IndexerKeepsPeer(s: State, choice: Choice, r: nat)
    requires Inv(s) && r < |s.peers|
    ensures var n := IndexerStep(s, choice); |n.peers| == |s.peers| && PeerInv(n, n.peers[r], r)
  {
    hide Total, All, Fifo, Count, WindowsHold, PeerCounts;
    assert PeerInv(s, s.peers[r], r);
    match s.pc
    case Receive(q) =>
      if q == r && !s.peers[r].gone && s.peers[r].channel != [] {
        FifoPop(Sent(s.peers[r]) - s.epoch, s.peers[r].pc.Out?);
        SameCounts(s, r);
      }
    case Iterating =>
    case LeaveCheck =>
    case Triggering(k) =>
    case Writing(k) =>
    case Written(k) =>
    case Finished =>
    case Left =>
  }

  /** Receiving a message changes none of a rank's own counters. */
  lemma SameCounts(s: State, r: nat)
    requires r < |s.peers|
    ensures forall channel, gone ::
              PeerCounts(s.plan, s.peers[r].(channel := channel, gone := gone)) == PeerCounts(s.plan, s.peers[r])
  {
  }

  /** The publication at hand is of the window that the plan says. */
  lemma NextWindow(s: State, k: nat)
    requires Proper(s.plan) && Count(s.plan, s.epoch, k, s.published) && k < |s.plan.pubs[s.epoch]|
    ensures var w := s.plan.pubs[s.epoch][k];
            && HasPub(s.plan, s.epoch, k) && s.published < |All(s.plan)| && All(s.plan)[s.published] == w
            && Numbers(s.plan, s.published + 1) == Numbers(s.plan, s.published)[w := Numbers(s.plan, s.published)[w] + 1]
            && Contents(s.plan, s.published + 1) == Contents(s.plan, s.published)[w := Dirty][w := Publication(s.published + 1)]
  {
    assert HasPub(s.plan, s.epoch, k);
    PubAt(s.plan, s.epoch, k);
    NextPublication(s.plan, s.published);
  }

  lemma FifoPop(releases: nat, out: bool)
    ensures releases > 0 ==> Fifo(releases, out)[0] == Release && Fifo(releases, out)[1..] == Fifo(releases - 1, out)
    ensures releases == 0 ==> Fifo(releases, out) == if out then [Departed] else []
  {
  }

  lemma StepInv(s: State, a: Action)
    requires Inv(s)
    ensures Inv(Step(s, a)) && Step(s, a).plan == s.plan && |Step(s, a).peers| == |s.peers|
  {
    hide Total, All, Fifo, PeerCounts, WindowsHold, Proper, Count;
    if a.OfIndexer? {
      hide PeerInv, IndexerInv;
      IndexerStepInv(s, a.choice);
    } else if a.r < |s.peers| {
      hide IndexerInv;
      var n := Step(s, a);
      forall r | 0 <= r < |s.peers|
        ensures PeerInv(n, n.peers[r], r)
      {
        assert PeerInv(s, s.peers[r], r);
        if r == a.r {
          PeerStepInv(s, r, a.choice);
        }
      }
      PeerKeepsIndexer(s, a.r, a.choice);
    }
  }

  lemma PeerKeepsIndexer(s: State, r: nat, choice: Choice)
    requires IndexerInv(s) && r < |s.peers|
    ensures IndexerInv(Step(s, OfPeer(r, choice)))
  {
    hide Total, All, Numbers, Contents;
    var n := Step(s, OfPeer(r, choice));
    assert forall q :: 0 <= q < |s.peers| ==> n.peers[q].gone == s.peers[q].gone;
  }

  lemma StartInv(plan: Plan, peers: nat)
    requires Proper(plan)
    ensures Inv(Start(plan, peers))
  {
    hide Flat;
    var s := Start(plan, peers);
    assert s.numbers == Numbers(plan, 0) && s.content == Contents(plan, 0);
  }

  lemma {:induction false} RunInv(plan: Plan, peers: nat, actions: seq<Action>)
    requires Proper(plan)
    ensures var s := Run(Start(plan, peers), actions); Inv(s) && s.plan == plan && |s.peers| == peers
  {
    hide Inv, Step;
    if actions == [] {
      StartInv(plan, peers);
    } else {
      RunInv(plan, peers, actions[..|actions| - 1]);
      StepInv(Run(Start(plan, peers), actions[..|actions| - 1]), actions[|actions| - 1]);
    }
  }

  // ----- Safety

  predicate Rewriting(s: State) {
    s.pc.Writing? || s.pc.Written?
  }

  /** While the indexing rank rewrites a window, no rank iterates over the old one: each is in the very same
      trigger, or left. */
  lemma NobodyReadsWhileRewriting(s: State, r: nat)
    requires Inv(s) && Rewriting(s) && r < |s.peers|
    ensures var p := s.peers[r]; p.pc.Out? || ((p.pc.InTrigger? || p.pc.Copying?) && p.epoch == s.epoch)
  {
    hide Total, Fifo, WindowsHold;
    var p := s.peers[r];
    assert PeerInv(s, p, r);
    AllIsTotal(s.plan);
    if !p.pc.Out? && p.epoch > s.epoch {
      TotalGrows(s.plan, s.epoch, p.epoch);
    }
  }

  /** No trigger publishes a window twice. */
  ghost predicate OncePerTrigger(plan: Plan) {
    forall n :: 0 <= n < |plan.pubs| ==> Different(plan.pubs[n], |plan.pubs[n]|)
  }

  ghost predicate Different(windows: seq<nat>, n: nat)
    requires n <= |windows|
  {
    forall i, j :: 0 <= i < j < n ==> windows[i] != windows[j]
  }

  /** Between the publication that a rank copies and the one that the indexer is at, none is of the same window. */
  lemma NoneSince(s: State, r: nat, i: nat)
    requires Inv(s) && r < |s.peers| && s.peers[r].pc.Copying? && OncePerTrigger(s.plan)
    requires |s.peers[r].copies| < i <= s.published && (i < s.published || Rewriting(s))
    ensures i < |All(s.plan)| && All(s.plan)[i] != All(s.plan)[|s.peers[r].copies|]
  {
    hide Total, All, Fifo, Numbers, Contents;
    var p, plan := s.peers[r], s.plan;
    assert PeerInv(s, p, r);
    AllIsTotal(plan);
    if p.epoch < s.epoch {
      TotalNext(plan, p.epoch);
    } else if p.epoch > s.epoch {
      TotalGrows(plan, s.epoch, p.epoch);
    }
    PubAt(plan, p.epoch, p.pc.k);
    PubAt(plan, p.epoch, i - Total(plan, p.epoch));
  }

  /** Then what a rank copies is the publication that it counted, whole. */
  lemma CopyIsCounted(s: State, r: nat)
    requires Inv(s) && r < |s.peers| && s.peers[r].pc.Copying? && OncePerTrigger(s.plan)
    ensures var q := |s.peers[r].copies|;
            q < |All(s.plan)| && All(s.plan)[q] < |s.content| && s.content[All(s.plan)[q]] == Publication(q + 1)
  {
    hide Total, All, Fifo, Numbers, LastOf, Counted;
    var p, plan := s.peers[r], s.plan;
    var q := |p.copies|;
    assert PeerInv(s, p, r);
    PubAt(plan, p.epoch, p.pc.k);
    assert HasPub(plan, p.epoch, p.pc.k);
    forall i | q < i < s.published
      ensures All(plan)[i] != All(plan)[q]
    {
      NoneSince(s, r, i);
    }
    LastStays(All(plan), q, s.published);
    if Rewriting(s) {
      NoneSince(s, r, s.published);
      LastStays(All(plan), q, s.published + 1);
    }
  }

  /** Every copy is of the publication that it was taken for. */
  predicate CopiesRight(s: State) {
    forall r, i :: 0 <= r < |s.peers| && 0 <= i < |s.peers[r].copies| ==> s.peers[r].copies[i] == Publication(i + 1)
  }

  lemma StepCopiesRight(s: State, a: Action)
    requires Inv(s) && OncePerTrigger(s.plan) && CopiesRight(s)
    ensures CopiesRight(Step(s, a))
  {
    hide Total, All, Fifo, Numbers, Contents, WindowsHold;
    if a.OfPeer? && a.r < |s.peers| {
      var p := s.peers[a.r];
      assert PeerInv(s, p, a.r);
      if p.pc.Copying? {
        CopyIsCounted(s, a.r);
        PubAt(s.plan, p.epoch, p.pc.k);
      }
    }
  }

  lemma {:induction false} RunCopiesRight(plan: Plan, peers: nat, actions: seq<Action>)
    requires Proper(plan) && OncePerTrigger(plan)
    ensures CopiesRight(Run(Start(plan, peers), actions))
  {
    hide Inv, Proper, OncePerTrigger;
    if actions != [] {
      var before, a := Run(Start(plan, peers), actions[..|actions| - 1]), actions[|actions| - 1];
      RunCopiesRight(plan, peers, actions[..|actions| - 1]);
      RunInv(plan, peers, actions[..|actions| - 1]);
      StepCopiesRight(before, a);
    }
  }

  /** The windows that a rank iterates over are as it last copied them: nothing was published since, none is
      being rewritten, and what each holds is the last publication of that window among those it copied. */
  lemma IdleHoldsLastCopies(s: State, r: nat)
    requires Inv(s) && r < |s.peers| && s.peers[r].pc.Idle?
    ensures var n := |s.peers[r].copies|; s.published == n <= |All(s.plan)| && s.content == Contents(s.plan, n)
    ensures CopiesRight(s) ==> forall w :: 0 <= w < |s.content| ==> IsLastCopy(s, r, w)
  {
    hide All, Fifo, Numbers, Contents, LastOf;
    var p := s.peers[r];
    assert PeerInv(s, p, r);
    AllIsTotal(s.plan);
    if s.epoch < p.epoch {
      TotalGrows(s.plan, s.epoch, p.epoch);
    }
    forall w | CopiesRight(s) && 0 <= w < |s.content|
      ensures IsLastCopy(s, r, w)
    {
      LastIsOf(All(s.plan), w, |p.copies|);
    }
  }

  /** A window holds what a rank copied of it last, or, without a publication, what it held at first. */
  predicate IsLastCopy(s: State, r: nat, w: nat)
    requires r < |s.peers| && |s.peers[r].copies| <= |All(s.plan)| && w < |s.content|
  {
    var copies := s.peers[r].copies;
    s.content[w].Publication? &&
    var n := s.content[w].number;
    && n <= |copies|
    && (n > 0 ==> All(s.plan)[n - 1] == w && copies[n - 1] == s.content[w])
    && (forall i :: n <= i < |copies| ==> All(s.plan)[i] != w)
  }

  lemma {:induction false} LastIsOf(all: seq<nat>, w: nat, n: nat)
    requires n <= |all|
    ensures LastOf(all, w, n).Publication? && LastOf(all, w, n).number <= n
    ensures var q := LastOf(all, w, n).number; (q > 0 ==> all[q - 1] == w) && forall i :: q <= i < n ==> all[i] != w
  {
    if n > 0 && all[n - 1] != w {
      LastIsOf(all, w, n - 1);
    }
  }

  /** Iterating ranks and the indexing rank are within one trigger of each other. */
  predicate EpochsClose(s: State) {
    forall r :: 0 <= r < |s.peers| && Active(s.peers[r]) ==>
        s.epoch <= s.peers[r].epoch + 1 && s.peers[r].epoch <= s.epoch + 1
  }

  predicate Active(p: Peer) {
    p.pc.Idle? || p.pc.InTrigger? || p.pc.Copying?
  }

  /** Every trigger between the first and the last publishes something, which the ranks have to wait for. */
  predicate PublishesBetween(plan: Plan) {
    forall n :: 1 <= n < |plan.pubs| - 1 ==> plan.pubs[n] != []
  }

  lemma InvEpochsClose(s: State)
    requires Inv(s) && PublishesBetween(s.plan)
    ensures EpochsClose(s)
  {
    hide Fifo, All, Numbers, Contents, WindowsHold, Total, Proper;
    forall r | 0 <= r < |s.peers| && Active(s.peers[r])
      ensures s.epoch <= s.peers[r].epoch + 1 && s.peers[r].epoch <= s.epoch + 1
    {
      var p := s.peers[r];
      assert PeerInv(s, p, r);
      if p.epoch > s.epoch + 1 {
        TotalNext(s.plan, s.epoch);
        TotalGrows(s.plan, s.epoch + 1, p.epoch);
      }
    }
  }

  // ----- Both conditions are exact

  ghost predicate Reaches(plan: Plan, s: State) {
    exists actions :: Run(Start(plan, 1), actions) == s
  }

  lemma Go(plan: Plan, s: State, a: Action) returns (next: State)
    requires Reaches(plan, s)
    ensures next == Step(s, a) && Reaches(plan, next)
  {
    next := Step(s, a);
    var actions :| Run(Start(plan, 1), actions) == s;
    assert (actions + [a])[..|actions|] == actions;
    assert Run(Start(plan, 1), actions + [a]) == next;
  }

  function Copies(t: nat): (c: seq<Content>)
    ensures |c| == t
  {
    if t == 0 then [] else Copies(t - 1) + [Publication(t)]
  }

  /** Two ranks that both finished n triggers. */
  function Together(plan: Plan, n: nat): State
    requires n <= |plan.pubs|
  {
    FlatPrefix(plan, n, |plan.pubs|);
    var t := Total(plan, n);
    State(plan, [Peer(Idle, n, Numbers(plan, t), Copies(t), [], false)], Iterating, false, n, t,
          Numbers(plan, t), Contents(plan, t))
  }

  predicate InTheTrigger(plan: Plan, n: nat, k: nat, c: nat) {
    n < |plan.pubs| && c <= k <= |plan.pubs[n]|
  }

  lemma InAll(plan: Plan, n: nat, k: nat)
    requires n < |plan.pubs| && k <= |plan.pubs[n]|
    ensures Total(plan, n) + k <= |All(plan)|
  {
    FlatPrefix(plan, n + 1, |plan.pubs|);
  }

  /** Both are in the next trigger: k publications of it are made, and c were copied. */
  function Mid(plan: Plan, n: nat, k: nat, c: nat): State
    requires InTheTrigger(plan, n, k, c)
  {
    InAll(plan, n, k);
    var t := Total(plan, n);
    State(plan, [Peer(InTrigger(c), n, Numbers(plan, t + c), Copies(t + c), [], false)], Triggering(k), false, n, t + k,
          Numbers(plan, t + k), Contents(plan, t + k))
  }

  lemma Release1(plan: Plan, n: nat)
    requires n < |plan.pubs| && Reaches(plan, Together(plan, n))
    ensures Reaches(plan, Mid(plan, n, 0, 0))
  {
    hide Reaches, Total, All, Numbers, Contents;
    var s := Together(plan, n);
    s := Go(plan, s, OfPeer(0, Next));
    s := Go(plan, s, OfIndexer(Next));
    s := Go(plan, s, OfIndexer(Next));
    assert s.peers[0] == Mid(plan, n, 0, 0).peers[0];
    assert s.peers == Mid(plan, n, 0, 0).peers;
    s := Go(plan, s, OfIndexer(Next));
  }

  lemma PublishOne(plan: Plan, n: nat, k: nat, c: nat)
    requires Proper(plan) && InTheTrigger(plan, n, k, c) && k < |plan.pubs[n]| && Reaches(plan, Mid(plan, n, k, c))
    ensures Reaches(plan, Mid(plan, n, k + 1, c))
  {
    hide Reaches, Total, All, Numbers, Contents, Copies;
    assert HasPub(plan, n, k);
    PubAt(plan, n, k);
    NextPublication(plan, Total(plan, n) + k);
    var s := Go(plan, Mid(plan, n, k, c), OfIndexer(Next));
    s := Go(plan, s, OfIndexer(Next));
    s := Go(plan, s, OfIndexer(Next));
  }

  lemma {:induction false} PublishSome(plan: Plan, n: nat, k: nat, c: nat)
    requires Proper(plan) && InTheTrigger(plan, n, k, c) && Reaches(plan, Mid(plan, n, c, c))
    ensures Reaches(plan, Mid(plan, n, k, c))
  {
    hide Reaches, Mid, Proper;
    if k > c {
      PublishSome(plan, n, k - 1, c);
      PublishOne(plan, n, k - 1, c);
    }
  }

  /** The state in which the other rank saw the number of its next publication. */
  function Seen(plan: Plan, n: nat, k: nat, c: nat): State
    requires InTheTrigger(plan, n, k, c)
  {
    var s := Mid(plan, n, k, c);
    s.(peers := [s.peers[0].(pc := Copying(c))])
  }

  lemma SeeOne(plan: Plan, n: nat, k: nat, c: nat)
    requires Proper(plan) && InTheTrigger(plan, n, k, c) && c < k && Reaches(plan, Mid(plan, n, k, c))
    ensures Reaches(plan, Seen(plan, n, k, c)) && Total(plan, n) + k <= |All(plan)|
  {
    hide Reaches, Total, All, Counted, LastOf, Copies;
    InAll(plan, n, k);
    assert HasPub(plan, n, c);
    PubAt(plan, n, c);
    CountedGrows(All(plan), plan.pubs[n][c], Total(plan, n) + c, Total(plan, n) + k);
    var s := Go(plan, Mid(plan, n, k, c), OfPeer(0, Next));
    assert s.peers == Seen(plan, n, k, c).peers;
  }

  lemma CopiedContent(plan: Plan, n: nat, c: nat)
    requires Proper(plan) && InTheTrigger(plan, n, c + 1, c)
    ensures Total(plan, n) + c + 1 <= |All(plan)| && plan.pubs[n][c] < plan.windows
    ensures Contents(plan, Total(plan, n) + c + 1)[plan.pubs[n][c]] == Publication(Total(plan, n) + c + 1)
  {
    InAll(plan, n, c + 1);
    hide Total, All, LastOf;
    assert HasPub(plan, n, c);
    PubAt(plan, n, c);
    LastStays(All(plan), Total(plan, n) + c, Total(plan, n) + c + 1);
  }

  /** A rank that copies each publication before the next one is made. */
  lemma CopyOne(plan: Plan, n: nat, c: nat)
    requires Proper(plan) && InTheTrigger(plan, n, c + 1, c) && Reaches(plan, Mid(plan, n, c + 1, c))
    ensures Reaches(plan, Mid(plan, n, c + 1, c + 1))
  {
    SeeOne(plan, n, c + 1, c);
    CopyStep(plan, n, c);
    hide Reaches, Total, All, Contents, Numbers, Copies, Proper, PeerStep, IndexerStep;
    var s := Go(plan, Seen(plan, n, c + 1, c), OfPeer(0, Next));
    assert s.peers == Mid(plan, n, c + 1, c + 1).peers;
  }

  lemma CopyStep(plan: Plan, n: nat, c: nat)
    requires Proper(plan) && InTheTrigger(plan, n, c + 1, c)
    ensures var s := Seen(plan, n, c + 1, c); PeerStep(s, s.peers[0], Next) == Mid(plan, n, c + 1, c + 1).peers[0]
  {
    CopiedContent(plan, n, c);
    assert HasPub(plan, n, c);
    PubAt(plan, n, c);
    InAll(plan, n, c + 1);
    NextPublication(plan, Total(plan, n) + c);
    CopiesNext(Total(plan, n) + c);
    hide Total, All, Contents, Numbers, Copies, Proper, Counted, LastOf;
  }

  lemma CopiesNext(t: nat)
    ensures Copies(t + 1) == Copies(t) + [Publication(t + 1)]
  {
  }

  lemma {:induction false} Alternate(plan: Plan, n: nat, k: nat)
    requires Proper(plan) && InTheTrigger(plan, n, k, k) && Reaches(plan, Together(plan, n))
    ensures Reaches(plan, Mid(plan, n, k, k))
  {
    hide Reaches, Mid, Proper, Together;
    if k == 0 {
      Release1(plan, n);
    } else {
      Alternate(plan, n, k - 1);
      PublishOne(plan, n, k - 1, k - 1);
      CopyOne(plan, n, k - 1);
    }
  }

  /** The other rank finished the trigger before the indexing rank did. */
  lemma PeerFinishes(plan: Plan, n: nat) returns (s: State)
    requires Proper(plan) && n + 1 < |plan.pubs| && Reaches(plan, Together(plan, n))
    ensures Reaches(plan, s) && s.plan == plan && s.peers == Together(plan, n + 1).peers
    ensures |s.peers| == 1 && s.peers[0].pc == Idle && s.peers[0].epoch == n + 1
    ensures s.epoch == n && s.pc == Triggering(|plan.pubs[n]|) && !s.leaving
    ensures s.published == Together(plan, n + 1).published && s.numbers == Together(plan, n + 1).numbers
        && s.content == Together(plan, n + 1).content
  {
    var m := |plan.pubs[n]|;
    Alternate(plan, n, m);
    TotalNext(plan, n);
    DoneIsNext(plan, n);
    hide Reaches, All, Numbers, Contents, Copies, Proper, PeerStep, Together, Mid, IndexerStep;
    s := Go(plan, Mid(plan, n, m, m), OfPeer(0, Next));
  }

  lemma DoneIsNext(plan: Plan, n: nat)
    requires n + 1 < |plan.pubs|
    ensures var m := |plan.pubs[n]|;
            var s, t := Mid(plan, n, m, m), Together(plan, n + 1);
            && |s.peers| == 1 && [PeerStep(s, s.peers[0], Next)] == t.peers && t.peers[0].pc == Idle
                && t.peers[0].epoch == n + 1
            && s.plan == plan && s.epoch == n && s.pc == Triggering(m) && !s.leaving
            && s.published == t.published && s.numbers == t.numbers && s.content == t.content
  {
    hide All, Numbers, Contents, Copies;
    TotalNext(plan, n);
  }

  lemma {:induction false} LockStep(plan: Plan, n: nat)
    requires Proper(plan) && n < |plan.pubs|
    ensures Reaches(plan, Together(plan, n))
  {
    if n == 0 {
      assert Run(Start(plan, 1), []) == Start(plan, 1);
      assert Start(plan, 1).peers[0] == Together(plan, 0).peers[0];
      assert Start(plan, 1).peers == Together(plan, 0).peers;
      assert Start(plan, 1) == Together(plan, 0);
    } else {
      LockStep(plan, n - 1);
      var s := PeerFinishes(plan, n - 1);
      hide Reaches, Numbers, Contents, All;
      s := Go(plan, s, OfIndexer(Next));
    }
  }

  /** When a trigger publishes a window again, a rank may copy its catalog while it is being rewritten. */
  lemma CopyGoesWrong(plan: Plan, n: nat, i: nat, j: nat) returns (s: State)
    requires Proper(plan) && n < |plan.pubs| && i < j < |plan.pubs[n]| && plan.pubs[n][i] == plan.pubs[n][j]
    ensures Reaches(plan, s) && !CopiesRight(s)
  {
    LockStep(plan, n);
    Alternate(plan, n, i);
    PublishSome(plan, n, j, i);
    SeeOne(plan, n, j, i);
    assert HasPub(plan, n, j) && HasPub(plan, n, i);
    hide Reaches, All, Proper;
    s := Go(plan, Seen(plan, n, j, i), OfIndexer(Next));
    s := Go(plan, s, OfPeer(0, Next));
    assert s.peers[0].copies[Total(plan, n) + i] == Dirty;
  }

  ghost predicate AlwaysCopiesRight(plan: Plan) {
    forall peers: nat, actions :: CopiesRight(Run(Start(plan, peers), actions))
  }

  /** In every run of every node each rank copies exactly what was published for it, if and only if no
      trigger publishes a window twice. */
  lemma CopiesRightExactly(plan: Plan)
    requires Proper(plan)
    ensures AlwaysCopiesRight(plan) <==> OncePerTrigger(plan)
  {
    hide Run, Start, CopiesRight;
    if OncePerTrigger(plan) {
      forall peers: nat, actions
        ensures CopiesRight(Run(Start(plan, peers), actions))
      {
        RunCopiesRight(plan, peers, actions);
      }
    } else {
      var n: nat :| n < |plan.pubs| && !Different(plan.pubs[n], |plan.pubs[n]|);
      var i: nat, j: nat :| i < j < |plan.pubs[n]| && plan.pubs[n][i] == plan.pubs[n][j];
      var s := CopyGoesWrong(plan, n, i, j);
    }
  }

  /** A rank does not wait in a trigger without publications: it may get two triggers ahead. */
  lemma RanksDrift(plan: Plan, n: nat) returns (s: State)
    requires Proper(plan) && 1 <= n < |plan.pubs| - 1 && plan.pubs[n] == []
    ensures Reaches(plan, s) && !EpochsClose(s)
  {
    LockStep(plan, n - 1);
    s := PeerFinishes(plan, n - 1);
    EmptyTrigger(s, n);
    hide Reaches, Together, Proper, Step;
    s := Go(plan, s, OfPeer(0, Next));
    s := Go(plan, s, OfPeer(0, Next));
    assert Active(s.peers[0]);
  }

  lemma EmptyTrigger(s: State, n: nat)
    requires |s.peers| == 1 && s.peers[0].pc == Idle && s.peers[0].epoch == n && n + 1 < |s.plan.pubs|
        && s.plan.pubs[n] == []
    ensures var t := Step(Step(s, OfPeer(0, Next)), OfPeer(0, Next));
            |t.peers| == 1 && t.peers[0].pc == Idle && t.peers[0].epoch == n + 1 && t.epoch == s.epoch
  {
  }

  ghost predicate AlwaysClose(plan: Plan) {
    forall peers: nat, actions :: EpochsClose(Run(Start(plan, peers), actions))
  }

  /** In every run of every node the ranks stay within one trigger of the indexing rank, if and only if
      every trigger between the first and the last publishes something. */
  lemma EpochsCloseExactly(plan: Plan)
    requires Proper(plan)
    ensures AlwaysClose(plan) <==> PublishesBetween(plan)
  {
    hide Run, Start, EpochsClose, Inv, Proper;
    if PublishesBetween(plan) {
      forall peers: nat, actions
        ensures EpochsClose(Run(Start(plan, peers), actions))
      {
        RunInv(plan, peers, actions);
        InvEpochsClose(Run(Start(plan, peers), actions));
      }
    } else {
      var n: nat :| 1 <= n < |plan.pubs| - 1 && plan.pubs[n] == [];
      var s := RanksDrift(plan, n);
    }
  }

  // ----- Ranks that leave

  /** A rank that leaves does not iterate again; it owes the indexing rank the releases of the triggers it finished,
      and after them its departure, and nothing else. */
  lemma LeaverDeparts(s: State, r: nat, a: Action)
    requires Inv(s) && r < |s.peers| && s.peers[r].pc.Idle? && a == OfPeer(r, Leave)
    ensures var p := Step(s, a).peers[r];
            && p.pc.Out? && !p.gone && p.copies == s.peers[r].copies
            && Consumed(s, r) <= p.epoch && p.channel == Fifo(p.epoch - Consumed(s, r), true)
  {
    StepInv(s, a);
    hide Total, All, Numbers, Contents, WindowsHold, PeerCounts;
    assert PeerInv(s, s.peers[r], r) && PeerInv(Step(s, a), Step(s, a).peers[r], r);
  }

  /** An indexing rank that leaves has left at once when no other rank iterates, and otherwise goes on to wait for the
      others. */
  lemma IndexerDeparts(s: State)
    requires s.pc.Iterating?
    ensures var n := Step(Step(s, OfIndexer(Leave)), OfIndexer(Next));
            n.leaving && n.peers == s.peers && n.pc == if OthersIterating(s) then Receive(0) else Left
  {
    SameOthers(s, Step(s, OfIndexer(Leave)));
  }

  /** A rank that is out stays out, and the indexing rank notes it exactly when it receives the departure. */
  lemma DepartureIsNoted(s: State, r: nat, a: Action)
    requires Inv(s) && r < |s.peers| && s.peers[r].pc.Out?
    ensures var n := Step(s, a);
            && |n.peers| == |s.peers| && n.peers[r].pc.Out?
            && (n.peers[r].gone <==> s.peers[r].gone || (a.OfIndexer? && s.pc == Receive(r) && Consumed(s, r) == s.peers[r].epoch))
  {
    hide Total, All, Numbers, Contents, WindowsHold, PeerCounts;
    assert PeerInv(s, s.peers[r], r);
    if !s.peers[r].gone {
      FifoPop(s.peers[r].epoch - Consumed(s, r), true);
    }
  }

  predicate Triggers(pc: IndexerPc) {
    pc.Triggering? || pc.Writing? || pc.Written?
  }

  /** An indexing rank that left does not iterate again, and goes on with triggers only for others that iterate. */
  predicate LeftRightly(s: State) {
    && (s.leaving ==> !s.pc.Iterating? && (Triggers(s.pc) ==> OthersIterating(s)))
    && (!s.leaving ==> !s.pc.LeaveCheck? && !s.pc.Left?)
  }

  lemma StepLeftRightly(s: State, a: Action)
    requires LeftRightly(s)
    ensures LeftRightly(Step(s, a)) && (s.leaving ==> Step(s, a).leaving)
  {
    var n := Step(s, a);
    match a
    case OfPeer(r, choice) =>
      if r < |s.peers| {
        assert forall q :: 0 <= q < |s.peers| ==> n.peers[q].gone == s.peers[q].gone;
      }
    case OfIndexer(choice) =>
      if n.peers == s.peers {
        SameOthers(s, n);
      }
  }

  lemma {:induction false} RunLeftRightly(plan: Plan, peers: nat, actions: seq<Action>)
    ensures LeftRightly(Run(Start(plan, peers), actions))
  {
    hide Step;
    if actions != [] {
      RunLeftRightly(plan, peers, actions[..|actions| - 1]);
      StepLeftRightly(Run(Start(plan, peers), actions[..|actions| - 1]), actions[|actions| - 1]);
    }
  }

  // ----- Progress

  predicate AllDone(s: State) {
    && (s.pc.Finished? || s.pc.Left?)
    && forall r :: 0 <= r < |s.peers| ==> s.peers[r].pc.Exhausted? || s.peers[r].pc.Out?
  }

  /** While a rank is neither exhausted nor departed, some rank can step. */
  lemma SomeRankCanStep(s: State) returns (a: Action)
    requires Inv(s) && !AllDone(s)
    ensures Step(s, a) != s
  {
    hide Total, All, Numbers, Contents, Fifo;
    if s.pc.Receive? && s.pc.r < |s.peers| && !s.peers[s.pc.r].gone && s.peers[s.pc.r].channel == [] {
      a := PeerCanStep(s, s.pc.r);
    } else if !s.pc.Finished? && !s.pc.Left? {
      a := OfIndexer(Next);
      if s.pc.Writing? || s.pc.Written? {
        assert HasPub(s.plan, s.epoch, s.pc.k);
      }
      assert IndexerStep(s, Next).pc != s.pc;
    } else {
      var r :| 0 <= r < |s.peers| && !s.peers[r].pc.Exhausted? && !s.peers[r].pc.Out?;
      assert PeerInv(s, s.peers[r], r);
      a := PeerCanStep(s, r);
    }
  }

  /** A rank that the indexing rank waits for, or that outlives it, does not wait. */
  lemma PeerCanStep(s: State, r: nat) returns (a: Action)
    requires Inv(s) && r < |s.peers| && !s.peers[r].gone
    requires (s.pc == Receive(r) && s.peers[r].channel == []) || ((s.pc.Finished? || s.pc.Left?) && Active(s.peers[r]))
    ensures Step(s, a) != s
  {
    hide Total, All, Numbers, Contents, Counted;
    var p := s.peers[r];
    assert PeerInv(s, p, r);
    a := OfPeer(r, Next);
    FifoPop(Sent(p) - Consumed(s, r), p.pc.Out?);
    if p.pc.InTrigger? {
      AllIsTotal(s.plan);
      TotalGrows(s.plan, p.epoch, s.epoch);
      if p.pc.k < |s.plan.pubs[p.epoch]| {
        SeesWhenPublished(s, p, p.pc.k);
      }
    } else if p.pc.Copying? {
      assert HasPub(s.plan, p.epoch, p.pc.k);
    }
    assert p.pc != PeerStep(s, p, Next).pc;
  }

  // ----- Every run ends

  /** What a rank still has to do, at most. */
  function PeerWork(plan: Plan, p: Peer): int {
    var left := 2 * (|plan.pubs| - p.epoch) + 2 * (|All(plan)| - |p.copies|);
    match p.pc
    case Idle => left
    case InTrigger(_) => left - 1
    case Copying(_) => left - 2
    case _ => 0
  }

  function IndexerWork(s: State): int {
    var left := (|s.plan.pubs| - s.epoch) * (|s.peers| + 5) + 3 * (|All(s.plan)| - s.published);
    match s.pc
    case Iterating => left
    case LeaveCheck => left - 1
    case Receive(r) => left - 2 - r
    case Triggering(_) => left - |s.peers| - 3
    case Writing(_) => left - |s.peers| - 4
    case Written(_) => left - |s.peers| - 5
    case _ => 0
  }

  function PeersWork(plan: Plan, peers: seq<Peer>): int {
    if peers == [] then 0 else PeerWork(plan, peers[0]) + PeersWork(plan, peers[1..])
  }

  function Work(s: State): int {
    IndexerWork(s) + PeersWork(s.plan, s.peers)
  }

  lemma {:induction false} PeersWorkUpdate(plan: Plan, peers: seq<Peer>, r: nat, p: Peer)
    requires r < |peers|
    ensures PeersWork(plan, peers[r := p]) == PeersWork(plan, peers) - PeerWork(plan, peers[r]) + PeerWork(plan, p)
  {
    hide PeerWork;
    if r > 0 {
      PeersWorkUpdate(plan, peers[1..], r - 1, p);
      assert peers[r := p][1..] == peers[1..][r - 1 := p];
    } else {
      assert peers[r := p][1..] == peers[1..];
    }
  }

  lemma TotalAtMost(plan: Plan, n: nat)
    requires n < |plan.pubs|
    ensures Total(plan, n) + |plan.pubs[n]| <= |All(plan)|
  {
    TotalGrows(plan, n, |plan.pubs|);
  }

  lemma PeerWorkShrinks(s: State, r: nat, choice: Choice)
    requires Inv(s) && r < |s.peers|
    ensures PeerWork(s.plan, s.peers[r]) >= 0
    ensures var n := PeerStep(s, s.peers[r], choice); n == s.peers[r] || PeerWork(s.plan, n) < PeerWork(s.plan, s.peers[r])
  {
    hide Fifo, All, Total, Numbers, WindowsHold;
    var p := s.peers[r];
    assert PeerInv(s, p, r);
    match p.pc
    case Copying(k) =>
      TotalAtMost(s.plan, p.epoch);
      assert HasPub(s.plan, p.epoch, k);
    case Exhausted =>
    case _ => TotalAtMost(s.plan, p.epoch);
  }

  lemma MulNext(e: nat, c: nat)
    ensures e > 0 ==> e * c == (e - 1) * c + c && (e - 1) * c >= 0
  {
  }

  lemma IndexerWorkShrinks(s: State, choice: Choice)
    requires Inv(s)
    ensures IndexerWork(s) >= 0
    ensures var n := IndexerStep(s, choice); n == s || IndexerWork(n) < IndexerWork(s)
  {
    hide Fifo, PeerInv, All, Total, Numbers, Contents;
    if !s.pc.Left? && !s.pc.Finished? {
      MulNext(|s.plan.pubs| - s.epoch, |s.peers| + 5);
      TotalAtMost(s.plan, s.epoch);
    }
    if s.pc.Writing? || s.pc.Written? {
      assert HasPub(s.plan, s.epoch, s.pc.k);
    }
  }

  lemma {:induction false} PeersWorkPositive(s: State, peers: seq<Peer>, from: nat)
    requires Inv(s) && from <= |s.peers| && peers == s.peers[from..]
    ensures PeersWork(s.plan, peers) >= 0
    decreases |peers|
  {
    hide PeerWork, Inv;
    if peers != [] {
      PeerWorkShrinks(s, from, Next);
      PeersWorkPositive(s, peers[1..], from + 1);
    }
  }

  lemma StepShrinks(s: State, a: Action)
    requires Inv(s)
    ensures Work(s) >= 0
    ensures Step(s, a) == s || Work(Step(s, a)) < Work(s)
  {
    hide Inv, PeersWork;
    PeersWorkPositive(s, s.peers, 0);
    match a
    case OfPeer(r, choice) =>
      hide PeerStep, PeerWork;
      IndexerWorkShrinks(s, choice);
      if r < |s.peers| {
        PeerWorkShrinks(s, r, choice);
        var p := PeerStep(s, s.peers[r], choice);
        PeersWorkUpdate(s.plan, s.peers, r, p);
        assert p == s.peers[r] ==> s.peers[r := p] == s.peers;
        SameIndexerWork(s, s.peers[r := p]);
      }
    case OfIndexer(choice) =>
      hide IndexerWork;
      IndexerWorkShrinks(s, choice);
      if s.pc.Receive? && s.pc.r < |s.peers| {
        var r := s.pc.r;
        PeersWorkUpdate(s.plan, s.peers, r, IndexerStep(s, choice).peers[r]);
      }
  }

  lemma SameIndexerWork(s: State, peers: seq<Peer>)
    requires |peers| == |s.peers|
    ensures IndexerWork(s.(peers := peers)) == IndexerWork(s)
  {
  }

  /** No action of any rank changes anything any more. */
  ghost predicate Stuck(s: State) {
    forall a :: Step(s, a) == s
  }

  /** Every action of the run changed the state. */
  ghost predicate Busy(s: State, actions: seq<Action>) {
    forall i :: 0 <= i < |actions| ==> Step(Run(s, actions[..i]), actions[i]) != Run(s, actions[..i])
  }

  /** Every run without idle waiting is bounded, whoever leaves early, and where it cannot go on, every rank
      is exhausted or departed. */
  lemma {:induction false} EveryRunEnds(plan: Plan, peers: nat, actions: seq<Action>)
    requires Proper(plan) && Busy(Start(plan, peers), actions)
    ensures var s := Run(Start(plan, peers), actions);
            && |actions| + Work(s) <= Work(Start(plan, peers)) && Work(s) >= 0
            && (Stuck(s) ==> AllDone(s))
  {
    hide Inv, Work, Step, AllDone;
    var start := Start(plan, peers);
    var s := Run(start, actions);
    RunInv(plan, peers, actions);
    StepShrinks(s, OfIndexer(Next));
    if Stuck(s) && !AllDone(s) {
      var a := SomeRankCanStep(s);
    }
    if actions != [] {
      var n := |actions| - 1;
      forall i | 0 <= i < n
        ensures Step(Run(start, actions[..n][..i]), actions[..n][i]) != Run(start, actions[..n][..i])
      {
        assert actions[..n][..i] == actions[..i];
      }
      EveryRunEnds(plan, peers, actions[..n]);
      RunInv(plan, peers, actions[..n]);
      StepShrinks(Run(start, actions[..n]), actions[n]);
    }
  }
}
