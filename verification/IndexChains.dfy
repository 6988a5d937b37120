/** A broker that reads a chain of chunks: which steps it will ever index. */
module IndexChains {
  import opened Common
  import opened StepTable
  import opened StreamBrokers

  /** A chunk either brings a new file to index, or keeps the one being indexed. */
  type Chunk = Option<File>

  // ----- Where a scan stops

  /** The first unit after p that starts a chunk, or the end of the parse. The unit at p itself stops the scan only
      if `any`, that is, if the batch already has a step. */
  ghost function SegmentEnd(file: File, header: nat, p: nat, any: bool): nat
    decreases |file| - p
  {
    if Readable(file, header, p) && !(any && file[p].marker) then SegmentEnd(file, header, p + file[p].size, true) else p
  }

  /** The steps up to there. */
  ghost function Segment(file: File, header: nat, p: nat, any: bool): seq<Step>
    decreases |file| - p
  {
    if Readable(file, header, p) && !(any && file[p].marker)
    then [StepAt(file, p)] + Segment(file, header, p + file[p].size, true) else []
  }

  /** What lies behind the segment is the rest of the parse, */
  lemma {:induction false} SegmentThenRest(file: File, header: nat, p: nat, any: bool)
    ensures Parse(file, header, p) ==
            Segment(file, header, p, any) + Parse(file, header, SegmentEnd(file, header, p, any))
    decreases |file| - p
  {
    hide StepAt, Readable;
    InRange(file, header, p);
    if Readable(file, header, p) && !(any && file[p].marker) {
      var next := p + file[p].size;
      SegmentThenRest(file, header, next, true);
      Associates([StepAt(file, p)], Segment(file, header, next, true),
        Parse(file, header, SegmentEnd(file, header, next, true)));
    }
  }

  lemma InRange(file: File, header: nat, p: nat)
    ensures Readable(file, header, p) ==> p < |file| && file[p].kind.Some?
  {
  }

  lemma StartsStep(file: File, header: nat, p: nat)
    ensures StartsChunk(file, header, p) ==> p < |file| && Parse(file, header, p) != []
    ensures p >= |file| ==> Parse(file, header, p) == []
    ensures Parse(file, header, p) == [] ==> ParseEnd(file, header, p) == p
  {
  }

  lemma Associates(a: seq<Step>, b: seq<Step>, c: seq<Step>)
    ensures a + (b + c) == (a + b) + c
  {
  }

  /** and it is empty, or its first unit starts a chunk. */
  lemma {:induction false} SegmentStops(file: File, header: nat, p: nat, any: bool)
    ensures var q := SegmentEnd(file, header, p, any); StartsChunk(file, header, q) || Parse(file, header, q) == []
    decreases |file| - p
  {
    hide StepAt;
    if Readable(file, header, p) && !(any && file[p].marker) {
      SegmentStops(file, header, p + file[p].size, true);
    }
  }

  /** A chunk counts as complete at the end of its file, and at a unit that starts the next one. */
  predicate CompleteAt(file: File, header: nat, q: nat) {
    q >= |file| || StartsChunk(file, header, q)
  }

  // ----- Which steps are reached

  /** The steps that are indexed, from position p of a file with chunks waiting, when no batch is cut short by its
      row capacity: the next chunk is taken when this one is complete, and if it brings a new file, that is
      indexed instead. */
  ghost function Reached(file: File, header: nat, p: nat, chunks: seq<Chunk>): seq<Step>
    decreases |chunks|
  {
    var q := SegmentEnd(file, header, p, false);
    if chunks == [] || !CompleteAt(file, header, q) then Parse(file, header, p)
    else
      Segment(file, header, p, false) +
      match chunks[0]
      case None => Reached(file, header, q, chunks[1..])
      case Some(f) => Reached(f, header, 0, chunks[1..])
  }

  /** The steps of the files that are waiting. */
  ghost function Waiting(header: nat, chunks: seq<Chunk>): seq<Step> {
    if chunks == [] then []
    else match chunks[0]
      case None => Waiting(header, chunks[1..])
      case Some(f) => Parse(f, header, 0) + Waiting(header, chunks[1..])
  }

  /** All the steps in the chain. */
  ghost function AllSteps(file: File, header: nat, p: nat, chunks: seq<Chunk>): seq<Step> {
    Parse(file, header, p) + Waiting(header, chunks)
  }

  /** Every file whose parse stops short of its end is followed by no further step, and a new file only follows
      where no unit of the old one starts a further chunk. */
  ghost predicate NothingBehindBreak(file: File, header: nat, p: nat, chunks: seq<Chunk>)
    decreases |chunks|
  {
    var q := SegmentEnd(file, header, p, false);
    if chunks == [] then true
    else if !CompleteAt(file, header, q) then Waiting(header, chunks) == []
    else match chunks[0]
      case None => NothingBehindBreak(file, header, q, chunks[1..])
      case Some(f) => q >= |file| && NothingBehindBreak(f, header, 0, chunks[1..])
  }

  /** A chain is indexed whole exactly when no file that ends in bytes which form no unit has steps in the files
      behind it, and no file is left for a new one before all its chunks are through. */
  lemma {:induction false} ChainIsWhole(file: File, header: nat, p: nat, chunks: seq<Chunk>)
    ensures Reached(file, header, p, chunks) == AllSteps(file, header, p, chunks) <==>
        NothingBehindBreak(file, header, p, chunks)
    ensures |Reached(file, header, p, chunks)| <= |AllSteps(file, header, p, chunks)|
    decreases |chunks|
  {
    var q := SegmentEnd(file, header, p, false);
    var here := Segment(file, header, p, false);
    SegmentThenRest(file, header, p, false);
    SegmentStops(file, header, p, false);
    hide Parse, Segment, SegmentEnd, StepAt, Readable, StartsChunk;
    StartsStep(file, header, q);
    if chunks != [] && CompleteAt(file, header, q) {
      match chunks[0]
      case None =>
        ChainIsWhole(file, header, q, chunks[1..]);
        SameHead(here, Reached(file, header, q, chunks[1..]), AllSteps(file, header, q, chunks[1..]));
        assert AllSteps(file, header, p, chunks) == here + AllSteps(file, header, q, chunks[1..]);
      case Some(f) =>
        ChainIsWhole(f, header, 0, chunks[1..]);
        StartsStep(file, header, q);
        NothingLost(here, Parse(file, header, q), Reached(f, header, 0, chunks[1..]), AllSteps(f, header, 0, chunks[1..]));
        assert AllSteps(file, header, p, chunks) ==
               here + (Parse(file, header, q) + AllSteps(f, header, 0, chunks[1..]));
    }
  }

  lemma NothingLost(here: seq<Step>, rest: seq<Step>, reached: seq<Step>, all: seq<Step>)
    requires |reached| <= |all|
    ensures here + reached == here + (rest + all) <==> rest == [] && reached == all
  {
    SameHead(here, reached, rest + all);
    if rest == [] {
      assert rest + all == all;
    }
  }

  lemma SameHead(here: seq<Step>, a: seq<Step>, b: seq<Step>)
    ensures here + a == here + b <==> a == b
  {
    assert (here + a)[|here|..] == a && (here + b)[|here|..] == b;
  }

  // ----- Whatever the row capacity

  /** The steps of one call with room for so many rows, */
  ghost function Indexed(file: File, header: nat, p: nat, any: bool, room: nat): (r: seq<Step>)
    ensures |r| <= room
    decreases room
  {
    if room > 0 && Readable(file, header, p) && !(any && file[p].marker)
    then [StepAt(file, p)] + Indexed(file, header, p + file[p].size, true, room - 1) else []
  }

  /** and where it stops. */
  ghost function IndexedEnd(file: File, header: nat, p: nat, any: bool, room: nat): (q: nat)
    ensures p <= q && (q > p ==> p < |file|)
    decreases room
  {
    if room > 0 && Readable(file, header, p) && !(any && file[p].marker)
    then IndexedEnd(file, header, p + file[p].size, true, room - 1) else p
  }

  /** This is what a call does that fits its scratch buffer: it stops when its room is full, at the end of the
      parse, or before a unit that starts a chunk. */
  lemma {:induction false} CallIsIndexed(file: File, header: nat, h0: seq<Step>, p0: nat, h: seq<Step>, p: nat, room: nat)
    requires SameSteps(file, header, h0, p0, h, p) && h0 <= h && NewInFile(file, h, |h0|) && |h| - |h0| <= room
    requires |h| - |h0| == room || Parse(file, header, p) == [] || (|h| > |h0| && StartsChunk(file, header, p))
    ensures h == h0 + Indexed(file, header, p0, false, room) && p == IndexedEnd(file, header, p0, false, room)
  {
    var found := h[|h0|..];
    assert h == h0 + found;
    assert (h0 + Parse(file, header, p0))[|h0|..] == Parse(file, header, p0);
    assert (h0 + (found + Parse(file, header, p)))[|h0|..] == found + Parse(file, header, p);
    assert h + Parse(file, header, p) == h0 + (found + Parse(file, header, p));
    FoundIsIndexed(file, header, p0, false, found, p, room);
  }

  lemma {:induction false} FoundIsIndexed(file: File, header: nat, p0: nat, any: bool, found: seq<Step>, p: nat, room: nat)
    requires Parse(file, header, p0) == found + Parse(file, header, p)
    requires ParseEnd(file, header, p0) == ParseEnd(file, header, p) && |found| <= room
    requires forall i :: 0 <= i < |found| ==> InFile(file, found[i]) && (any || i > 0 ==> !file[found[i].offset].marker)
    requires |found| == room || Parse(file, header, p) == [] || ((any || |found| > 0) && StartsChunk(file, header, p))
    ensures found == Indexed(file, header, p0, any, room) && p == IndexedEnd(file, header, p0, any, room)
    decreases |found|
  {
    if found == [] {
      assert Parse(file, header, p0) == Parse(file, header, p);
    } else {
      var next := p0 + file[p0].size;
      assert Parse(file, header, p0)[0] == found[0];
      assert Parse(file, header, next) == Parse(file, header, p0)[1..] == found[1..] + Parse(file, header, p);
      FoundIsIndexed(file, header, next, true, found[1..], p, room - 1);
    }
  }

  /** A call that fills its room stops inside of the segment, and any other one at its end. */
  lemma {:induction false} IndexedIsPart(file: File, header: nat, p: nat, any: bool, room: nat)
    ensures var got, q := Indexed(file, header, p, any, room), IndexedEnd(file, header, p, any, room);
            && Parse(file, header, p) == got + Parse(file, header, q)
            && ParseEnd(file, header, p) == ParseEnd(file, header, q)
            && SegmentEnd(file, header, q, any || got != []) == SegmentEnd(file, header, p, any)
            && (|got| < room ==> got == Segment(file, header, p, any) && q == SegmentEnd(file, header, p, any))
            && (|got| <= if p < |file| then |file| - p else 0)
            && (got != [] ==> p < q)
    decreases room
  {
    hide StepAt, Readable;
    InRange(file, header, p);
    if room > 0 && Readable(file, header, p) && !(any && file[p].marker) {
      var next := p + file[p].size;
      IndexedIsPart(file, header, next, true, room - 1);
      Associates([StepAt(file, p)], Indexed(file, header, next, true, room - 1),
        Parse(file, header, IndexedEnd(file, header, next, true, room - 1)));
    }
  }

  /** The steps that are indexed when the n-th call has room for rooms(n) rows. */
  ghost function ReachedWith(file: File, header: nat, p: nat, chunks: seq<Chunk>, rooms: nat -> Size, n: nat): seq<Step>
    decreases |chunks|, if p < |file| then |file| - p else 0
  {
    var got, q := Indexed(file, header, p, false, rooms(n)), IndexedEnd(file, header, p, false, rooms(n));
    if chunks == [] then Parse(file, header, p)
    else if |got| == rooms(n) then
      IndexedIsPart(file, header, p, false, rooms(n));
      got + ReachedWith(file, header, q, chunks, rooms, n + 1)
    else if !CompleteAt(file, header, q) then got
    else
      got +
      match chunks[0]
      case None => ReachedWith(file, header, q, chunks[1..], rooms, n + 1)
      case Some(f) => ReachedWith(f, header, 0, chunks[1..], rooms, n + 1)
  }

  /** Whoever is a whole chunk ahead has no more behind a break. */
  lemma {:induction false} AheadIsWhole(file: File, header: nat, p: nat, chunks: seq<Chunk>)
    requires NothingBehindBreak(file, header, p, chunks)
    ensures NothingBehindBreak(file, header, SegmentEnd(file, header, p, false), chunks)
    decreases |chunks|
  {
    var q := SegmentEnd(file, header, p, false);
    SegmentStops(file, header, p, false);
    EmptySegment(file, header, q);
    if chunks != [] && chunks[0].None? && CompleteAt(file, header, q) {
      AheadIsWhole(file, header, q, chunks[1..]);
    }
  }

  lemma EmptySegment(file: File, header: nat, q: nat)
    ensures Parse(file, header, q) == [] || q >= |file| ==> SegmentEnd(file, header, q, false) == q
  {
  }

  lemma SameFromMarkerless(file: File, header: nat, q: nat)
    ensures !StartsChunk(file, header, q) ==> SegmentEnd(file, header, q, false) == SegmentEnd(file, header, q, true)
    ensures StartsChunk(file, header, q) ==> SegmentEnd(file, header, q, true) == q
  {
  }

  /** After a call that filled its room the condition still holds. */
  lemma FilledIsWhole(file: File, header: nat, p: nat, chunks: seq<Chunk>, room: nat)
    requires NothingBehindBreak(file, header, p, chunks)
    ensures NothingBehindBreak(file, header, IndexedEnd(file, header, p, false, room), chunks)
  {
    var q := IndexedEnd(file, header, p, false, room);
    IndexedIsPart(file, header, p, false, room);
    SameFromMarkerless(file, header, q);
    AheadIsWhole(file, header, p, chunks);
    hide SegmentEnd, Parse, Segment;
  }

  lemma {:induction false} WholeReachesAll(file: File, header: nat, p: nat, chunks: seq<Chunk>, rooms: nat -> Size, n: nat)
    requires NothingBehindBreak(file, header, p, chunks)
    ensures ReachedWith(file, header, p, chunks, rooms, n) == AllSteps(file, header, p, chunks)
    decreases |chunks|, if p < |file| then |file| - p else 0
  {
    var got, q := Indexed(file, header, p, false, rooms(n)), IndexedEnd(file, header, p, false, rooms(n));
    IndexedIsPart(file, header, p, false, rooms(n));
    SegmentStops(file, header, p, false);
    StartsStep(file, header, q);
    hide Parse, Segment, SegmentEnd, StepAt, Readable, StartsChunk, Indexed, IndexedEnd;
    if chunks == [] {
    } else if |got| == rooms(n) {
      FilledIsWhole(file, header, p, chunks, rooms(n));
      WholeReachesAll(file, header, q, chunks, rooms, n + 1);
      Associates(got, Parse(file, header, q), Waiting(header, chunks));
    } else if CompleteAt(file, header, q) {
      match chunks[0]
      case None =>
        WholeReachesAll(file, header, q, chunks[1..], rooms, n + 1);
        Associates(got, Parse(file, header, q), Waiting(header, chunks));
      case Some(f) =>
        WholeReachesAll(f, header, 0, chunks[1..], rooms, n + 1);
    }
  }

  predicate Ample(file: File, chunks: seq<Chunk>, room: nat) {
    |file| < room && forall i :: 0 <= i < |chunks| && chunks[i].Some? ==> |chunks[i].value| < room
  }

  lemma {:induction false} AmpleExists(file: File, chunks: seq<Chunk>) returns (room: Size)
    ensures Ample(file, chunks, room)
    decreases |chunks|
  {
    if chunks == [] {
      room := |file| + 1;
    } else {
      room := AmpleExists(file, chunks[1..]);
      if chunks[0].Some? && |chunks[0].value| >= room {
        room := |chunks[0].value| + 1;
      }
    }
  }

  /** With ample room the steps are those that are reached without bounds on rows. */
  lemma {:induction false} AmpleIsReached(file: File, header: nat, p: nat, chunks: seq<Chunk>, room: Size, n: nat)
    requires Ample(file, chunks, room)
    ensures ReachedWith(file, header, p, chunks, _ => room, n) == Reached(file, header, p, chunks)
    decreases |chunks|
  {
    var q := IndexedEnd(file, header, p, false, room);
    IndexedIsPart(file, header, p, false, room);
    SegmentStops(file, header, p, false);
    hide Parse, Segment, SegmentEnd, StepAt, Readable, Indexed, IndexedEnd;
    if chunks != [] && CompleteAt(file, header, q) {
      match chunks[0]
      case None => AmpleIsReached(file, header, q, chunks[1..], room, n + 1);
      case Some(f) => AmpleIsReached(f, header, 0, chunks[1..], room, n + 1);
    }
  }

  ghost predicate AlwaysReachesAll(file: File, header: nat, p: nat, chunks: seq<Chunk>) {
    forall rooms: nat -> Size :: ReachesAll(file, header, p, chunks, rooms)
  }

  ghost predicate ReachesAll(file: File, header: nat, p: nat, chunks: seq<Chunk>, rooms: nat -> Size) {
    ReachedWith(file, header, p, chunks, rooms, 0) == AllSteps(file, header, p, chunks)
  }

  /** So this is also exactly when a chain is indexed whole whatever room the calls have. */
  lemma AlwaysWhole(file: File, header: nat, p: nat, chunks: seq<Chunk>)
    ensures AlwaysReachesAll(file, header, p, chunks) <==> NothingBehindBreak(file, header, p, chunks)
  {
    hide ReachedWith, Reached, AllSteps, NothingBehindBreak;
    if AlwaysReachesAll(file, header, p, chunks) {
      var room := AmpleExists(file, chunks);
      AmpleIsReached(file, header, p, chunks, room, 0);
      assert ReachesAll(file, header, p, chunks, _ => room);
      ChainIsWhole(file, header, p, chunks);
    }
    if NothingBehindBreak(file, header, p, chunks) {
      forall rooms: nat -> Size
        ensures ReachesAll(file, header, p, chunks, rooms)
      {
        WholeReachesAll(file, header, p, chunks, rooms, 0);
      }
    }
  }

  // ----- Steps that are lost

  /** One trailing byte that forms no unit hides the next file's step. */
  lemma TrailingBytesHideChunk()
    ensures var step := Unit(Some(0), 1, 1, 7, false);
            var junk := Unit(None, 1, 1, 0, false);
            Reached([step, junk], 1, 0, [Some([step])]) == [Step(0, 7, 0)]
            && AllSteps([step, junk], 1, 0, [Some([step])]) == [Step(0, 7, 0), Step(0, 7, 0)]
  {
    var step := Unit(Some(0), 1, 1, 7, false);
    var junk := Unit(None, 1, 1, 0, false);
    OneStepFile();
    var file := [step, junk];
    assert Parse(file, 1, 1) == [] && SegmentEnd(file, 1, 1, true) == 1;
    assert Parse(file, 1, 0) == [Step(0, 7, 0)] + [];
    assert SegmentEnd(file, 1, 0, false) == 1;
    var chunks: seq<Chunk> := [Some([step])];
    assert Waiting(1, chunks[1..]) == [];
  }

  lemma OneStepFile()
    ensures var step := Unit(Some(0), 1, 1, 7, false);
            Parse([step], 1, 0) == [Step(0, 7, 0)] && Reached([step], 1, 0, []) == [Step(0, 7, 0)]
  {
    var step := Unit(Some(0), 1, 1, 7, false);
    assert Parse([step], 1, 1) == [];
    assert Parse([step], 1, 0) == [Step(0, 7, 0)] + [];
  }

  /** A unit that starts a chunk is lost if a new file follows instead. */
  lemma NewFileHidesMarkedStep()
    ensures var step, marked := Unit(Some(0), 1, 1, 7, false), Unit(Some(0), 1, 1, 8, true);
            Reached([step, marked], 1, 0, [Some([step])]) == [Step(0, 7, 0), Step(0, 7, 0)]
            && AllSteps([step, marked], 1, 0, [Some([step])]) == [Step(0, 7, 0), Step(0, 8, 1), Step(0, 7, 0)]
  {
    var step, marked := Unit(Some(0), 1, 1, 7, false), Unit(Some(0), 1, 1, 8, true);
    OneStepFile();
    var file := [step, marked];
    assert Parse(file, 1, 2) == [];
    assert Parse(file, 1, 1) == [Step(0, 8, 1)] + [];
    assert Parse(file, 1, 0) == [Step(0, 7, 0)] + [Step(0, 8, 1)];
    assert SegmentEnd(file, 1, 1, true) == 1 && Segment(file, 1, 1, true) == [];
    assert SegmentEnd(file, 1, 0, false) == 1 && Segment(file, 1, 0, false) == [Step(0, 7, 0)] + [];
    var chunks: seq<Chunk> := [Some([step])];
    assert Waiting(1, chunks[1..]) == [];
  }

  // ----- Chains of files without markers

  /** The steps still to be indexed, whatever the row capacity, of a chain in which only the last file has markers. */
  ghost function ChainSteps(file: File, header: nat, p: nat, chunks: seq<Chunk>): seq<Step>
    decreases |chunks|
  {
    if chunks == [] then Parse(file, header, p)
    else match chunks[0]
      case None => ChainSteps(file, header, p, chunks[1..])
      case Some(f) =>
        Parse(file, header, p) + if ParseEnd(file, header, p) >= |file| then ChainSteps(f, header, 0, chunks[1..]) else []
  }

  /** Whether a file contains chunk markers. Formats with markers go on in the same file. */
  predicate NoMarkers(file: File) {
    forall p :: 0 <= p < |file| ==> !file[p].marker
  }

  /** The waiting chunks fit the broker, and a file followed by another has no markers in it. */
  ghost predicate Proper(file: File, header: nat, scratch: nat, chunks: seq<Chunk>)
    decreases |chunks|
  {
    && UnitsFit(file, header, scratch)
    && (chunks != [] ==> match chunks[0]
          case None => Proper(file, header, scratch, chunks[1..])
          case Some(f) => NoMarkers(file) && Proper(f, header, scratch, chunks[1..]))
  }

  ghost predicate ChunkKindsBelow(chunks: seq<Chunk>, kinds: nat) {
    forall i :: 0 <= i < |chunks| && chunks[i].Some? ==> KindsBelow(chunks[i].value, kinds)
  }

  /** How much a broker can still do: chunks, and bytes not parsed. */
  function Unread(length: nat, pos: nat): nat {
    if pos < length then length - pos else 0
  }

  function ChunkWork(chunks: seq<Chunk>): nat {
    if chunks == [] then 0
    else ChunkWork(chunks[1..]) + match chunks[0] case None => 1 case Some(f) => 1 + |f|
  }

  function Work(length: nat, pos: nat, chunks: seq<Chunk>): nat {
    Unread(length, pos) + ChunkWork(chunks)
  }

  // ----- What one step of the chain does to the steps still to come

  ghost predicate ChainKept(header: nat, h0: seq<Step>, f0: File, p0: nat, c0: seq<Chunk>, h: seq<Step>, f: File, p: nat,
        c: seq<Chunk>) {
    h0 + ChainSteps(f0, header, p0, c0) == h + ChainSteps(f, header, p, c)
  }

  lemma AppendBoth(h0: seq<Step>, a: seq<Step>, h: seq<Step>, b: seq<Step>, rest: seq<Step>)
    requires h0 + a == h + b
    ensures h0 + (a + rest) == h + (b + rest)
  {
    assert h0 + (a + rest) == (h0 + a) + rest;
    assert h + (b + rest) == (h + b) + rest;
  }

  lemma {:induction false} IndexKeepsChain(file: File, header: nat, h0: seq<Step>, p0: nat, h: seq<Step>, p: nat,
        chunks: seq<Chunk>)
    requires SameSteps(file, header, h0, p0, h, p)
    ensures ChainKept(header, h0, file, p0, chunks, h, file, p, chunks)
    decreases |chunks|
  {
    hide Parse, ParseEnd;
    if chunks != [] {
      match chunks[0]
      case None => IndexKeepsChain(file, header, h0, p0, h, p, chunks[1..]);
      case Some(f) =>
        var rest := if ParseEnd(file, header, p0) >= |file| then ChainSteps(f, header, 0, chunks[1..]) else [];
        AppendBoth(h0, Parse(file, header, p0), h, Parse(file, header, p), rest);
    }
  }

  lemma AdvanceKeepsChain(file: File, header: nat, h: seq<Step>, p: nat, chunks: seq<Chunk>)
    requires chunks != []
    requires chunks[0].Some? ==> p >= |file|
    ensures match chunks[0]
            case None => ChainKept(header, h, file, p, chunks, h, file, p, chunks[1..])
            case Some(f) => ChainKept(header, h, file, p, chunks, h, f, 0, chunks[1..])
  {
    if chunks[0].Some? {
      NothingLeft(file, header, p);
      assert Parse(file, header, p) == [] && ParseEnd(file, header, p) == p;
      assert [] + ChainSteps(chunks[0].value, header, 0, chunks[1..]) == ChainSteps(chunks[0].value, header, 0, chunks[1..]);
    }
  }

  /** When the next chunk is not reached, nothing is left but what is left here. */
  lemma {:induction false} ChainIsDone(file: File, header: nat, p: nat, chunks: seq<Chunk>)
    requires ParseEnd(file, header, p) < |file|
    ensures ChainSteps(file, header, p, chunks) == Parse(file, header, p)
    decreases |chunks|
  {
    if chunks != [] && chunks[0].None? {
      ChainIsDone(file, header, p, chunks[1..]);
    }
  }

  lemma NoMarkerStarts(file: File, header: nat, p: nat)
    requires NoMarkers(file)
    ensures !StartsChunk(file, header, p)
  {
  }

  /** In such a chain these are the steps reached, whatever room the calls have. */
  lemma {:induction false} ProperIsReached(file: File, header: nat, scratch: nat, p: nat, chunks: seq<Chunk>,
        rooms: nat -> Size, n: nat)
    requires Proper(file, header, scratch, chunks)
    ensures ReachedWith(file, header, p, chunks, rooms, n) == ChainSteps(file, header, p, chunks)
    decreases |chunks|, if p < |file| then |file| - p else 0
  {
    var got, q := Indexed(file, header, p, false, rooms(n)), IndexedEnd(file, header, p, false, rooms(n));
    IndexedIsPart(file, header, p, false, rooms(n));
    SegmentStops(file, header, p, false);
    StartsStep(file, header, q);
    hide Parse, ParseEnd, Segment, SegmentEnd, Readable, StartsChunk, StepAt, Indexed, IndexedEnd, UnitsFit, NoMarkers,
      KindsBelow;
    if chunks == [] {
    } else if |got| == rooms(n) {
      ProperIsReached(file, header, scratch, q, chunks, rooms, n + 1);
      IndexKeepsChain(file, header, [], p, got, q, chunks);
    } else if !CompleteAt(file, header, q) {
      ChainIsDone(file, header, p, chunks);
    } else {
      match chunks[0]
      case None =>
        ProperIsReached(file, header, scratch, q, chunks[1..], rooms, n + 1);
        IndexKeepsChain(file, header, [], p, got, q, chunks[1..]);
      case Some(f) =>
        ProperIsReached(f, header, scratch, 0, chunks[1..], rooms, n + 1);
        NoMarkerStarts(file, header, q);
    }
  }

  /** And they are the first ones of all. */
  lemma {:induction false} ChainIsPrefix(file: File, header: nat, p: nat, chunks: seq<Chunk>)
    ensures ChainSteps(file, header, p, chunks) <= AllSteps(file, header, p, chunks)
    decreases |chunks|
  {
    hide Parse, ParseEnd;
    if chunks != [] {
      match chunks[0]
      case None => ChainIsPrefix(file, header, p, chunks[1..]);
      case Some(f) => ChainIsPrefix(f, header, 0, chunks[1..]);
    }
  }
}
