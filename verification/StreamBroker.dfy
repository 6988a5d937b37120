/** A broker's index of one stream: resumable scans through a bounded scratch buffer fill a fixed
    row array, and hinted searches answer for the whole history. */
module StreamBrokers {
  import opened Common
  import opened StepTable

  type Size = n: nat | n > 0 witness 1

  /** What the bytes from one position of a file read as. `locate` is how many of them have to be
      at hand to tell; `marker` says whether the unit starts a chunk. */
  datatype Unit = Unit(kind: Option<nat>, size: Size, locate: nat, key: nat, marker: bool)

  type File = seq<Unit>

  /** Whether a whole unit's locating bytes remain in the file. */
  predicate Readable(file: File, header: nat, p: nat) {
    p < |file| && p + header <= |file| && p + file[p].locate <= |file| && file[p].kind.Some?
  }

  predicate StartsChunk(file: File, header: nat, p: nat) {
    Readable(file, header, p) && file[p].marker
  }

  function StepAt(file: File, p: nat): Step
    requires p < |file| && file[p].kind.Some?
  {
    Step(file[p].kind.value, file[p].key, p)
  }

  /** The reference: the steps of a file from position p, found in one pass with no buffer limits. */
  ghost function Parse(file: File, header: nat, p: nat): seq<Step>
    decreases |file| - p
  {
    if Readable(file, header, p) then [StepAt(file, p)] + Parse(file, header, p + file[p].size) else []
  }

  /** Having the steps h0 and the file from p0 comes to the same steps as having h and the file from p,
      and a single pass from either position stops at the same place. */
  ghost predicate SameSteps(file: File, header: nat, h0: seq<Step>, p0: nat, h: seq<Step>, p: nat) {
    h0 + Parse(file, header, p0) == h + Parse(file, header, p) && ParseEnd(file, header, p0) == ParseEnd(file, header, p)
  }

  lemma SameStepsStart(file: File, header: nat, h: seq<Step>, p: nat)
    ensures SameSteps(file, header, h, p, h, p)
  {
  }

  lemma SameStepsPush(file: File, header: nat, h0: seq<Step>, p0: nat, h: seq<Step>, p: nat)
    requires SameSteps(file, header, h0, p0, h, p) && Readable(file, header, p)
    ensures SameSteps(file, header, h0, p0, h + [StepAt(file, p)], p + file[p].size)
  {
    var rest := Parse(file, header, p + file[p].size);
    assert h + ([StepAt(file, p)] + rest) == (h + [StepAt(file, p)]) + rest;
  }

  /** The steps from `start` on are of units of the file, and only the first of them may start a chunk. */
  ghost predicate NewInFile(file: File, h: seq<Step>, start: nat) {
    forall i :: start <= i < |h| ==> InFile(file, h[i]) && (i > start ==> !file[h[i].offset].marker)
  }

  predicate InFile(file: File, x: Step) {
    x.offset < |file| && file[x.offset].kind.Some? && x == StepAt(file, x.offset)
  }

  /** The unit at p needs more bytes than the scratch buffer holds. */
  predicate TooLong(file: File, header: nat, scratch: nat, p: nat) {
    p + scratch < |file| && (header > scratch || file[p].locate > scratch)
  }

  /** None of the steps from `start` on is of such a unit. */
  ghost predicate NewFit(file: File, header: nat, scratch: nat, h: seq<Step>, start: nat) {
    forall i :: start <= i < |h| ==> !TooLong(file, header, scratch, h[i].offset)
  }

  /** Whether a call that begins at p gets to such a unit before its room is full, or the parse or chunk ends. */
  predicate Truncates(file: File, header: nat, scratch: nat, p: nat, any: bool, room: nat)
    decreases room
  {
    room > 0 &&
    (TooLong(file, header, scratch, p)
     || (Readable(file, header, p) && !(any && file[p].marker)
         && Truncates(file, header, scratch, p + file[p].size, true, room - 1)))
  }

  /** That is when it ends at one. */
  lemma {:induction false} TruncatesExactly(file: File, header: nat, scratch: nat, p0: nat, any: bool, found: seq<Step>,
        p: nat, room: nat)
    requires Parse(file, header, p0) == found + Parse(file, header, p)
    requires ParseEnd(file, header, p0) == ParseEnd(file, header, p) && |found| <= room
    requires forall i :: 0 <= i < |found| ==> InFile(file, found[i]) && (any || i > 0 ==> !file[found[i].offset].marker)
    requires NewFit(file, header, scratch, found, 0)
    requires |found| == room || TooLong(file, header, scratch, p) || Parse(file, header, p) == []
        || ((any || |found| > 0) && StartsChunk(file, header, p))
    ensures Truncates(file, header, scratch, p0, any, room) <==> |found| < room && TooLong(file, header, scratch, p)
    decreases |found|
  {
    hide TooLong;
    if found == [] {
      assert Parse(file, header, p0) == Parse(file, header, p);
      SamePosition(file, header, p0, p);
    } else {
      var next := p0 + file[p0].size;
      assert Parse(file, header, p0)[0] == found[0];
      assert Parse(file, header, next) == Parse(file, header, p0)[1..] == found[1..] + Parse(file, header, p);
      TruncatesExactly(file, header, scratch, next, true, found[1..], p, room - 1);
    }
  }

  lemma SamePosition(file: File, header: nat, p: nat, q: nat)
    requires Parse(file, header, p) == Parse(file, header, q) && ParseEnd(file, header, p) == ParseEnd(file, header, q)
    ensures p == q
  {
    if Parse(file, header, p) != [] {
      assert Parse(file, header, p)[0].offset == p;
      assert Parse(file, header, q)[0].offset == q;
    }
  }

  lemma {:induction false} FitsNeverTruncates(file: File, header: nat, scratch: nat, p: nat, any: bool, room: nat)
    requires UnitsFit(file, header, scratch)
    ensures !Truncates(file, header, scratch, p, any, room)
    decreases room
  {
    if room > 0 && Readable(file, header, p) {
      FitsNeverTruncates(file, header, scratch, p + file[p].size, true, room - 1);
    }
  }

  lemma NewFitPush(file: File, header: nat, scratch: nat, h: seq<Step>, start: nat, x: Step)
    requires NewFit(file, header, scratch, h, start) && !TooLong(file, header, scratch, x.offset)
    ensures NewFit(file, header, scratch, h + [x], start)
  {
  }

  lemma NewInFilePush(file: File, h: seq<Step>, start: nat, p: nat)
    requires NewInFile(file, h, start) && p < |file| && file[p].kind.Some? && !(|h| > start && file[p].marker)
    ensures NewInFile(file, h + [StepAt(file, p)], start)
  {
  }

  lemma NothingLeft(file: File, header: nat, p: nat)
    ensures p >= |file| || p + header > |file| || p + file[p].locate > |file| ==>
              Parse(file, header, p) == [] && !Readable(file, header, p)
  {
  }

  /** Where that pass stops. */
  ghost function ParseEnd(file: File, header: nat, p: nat): nat
    decreases |file| - p
  {
    if Readable(file, header, p) then ParseEnd(file, header, p + file[p].size) else p
  }

  predicate KindsBelow(file: File, kinds: nat) {
    forall p :: 0 <= p < |file| && file[p].kind.Some? ==> file[p].kind.value < kinds
  }

  /** `c` begins with the first k of the saved rows, each alone in the list of its kind. */
  ghost predicate Placed(c: Table, saved: seq<Option<Row>>, k: nat)
    requires k <= |saved|
  {
    && |c.first| == |c.last| == |saved|
    && |c.rows| <= k
    && (forall i :: 0 <= i < |c.rows| ==>
          && c.rows[i].Kind() < k && saved[c.rows[i].Kind()].Some?
          && c.rows[i] == saved[c.rows[i].Kind()].value.(next := None, prev := None)
          && c.last[c.rows[i].Kind()] == Some(i))
    && (forall i, j :: 0 <= i < j < |c.rows| ==> c.rows[i].Kind() < c.rows[j].Kind())
    && (forall j :: 0 <= j < |c.last| ==>
          && c.first[j] == c.last[j] && (c.last[j].Some? <==> j < k && saved[j].Some?)
          && (c.last[j].Some? ==> c.last[j].value < |c.rows| && c.rows[c.last[j].value].Kind() == j))
  }

  lemma PlacedNone(c: Table, saved: seq<Option<Row>>)
    requires c.rows == [] && c.first == c.last == seq(|saved|, _ => None)
    ensures Placed(c, saved, 0)
  {
  }

  lemma PlacedNext(c: Table, saved: seq<Option<Row>>, k: nat)
    requires k < |saved| && Placed(c, saved, k) && |c.first| == |c.last| == |saved|
    requires saved[k].Some? ==> saved[k].value.Kind() == k
    ensures saved[k].None? ==> Placed(c, saved, k + 1)
    ensures saved[k].Some? ==>
              Placed(c.(rows := c.rows + [saved[k].value.(next := None, prev := None)],
                        first := c.first[k := Some(|c.rows|)], last := c.last[k := Some(|c.rows|)]), saved, k + 1)
  {
  }

  ghost predicate Saves(saved: seq<Option<Row>>, t: Table) {
    && |saved| == |t.last|
    && forall k :: 0 <= k < |saved| ==>
         && saved[k].Some? == t.last[k].Some?
         && (saved[k].Some? ==> t.last[k].value < |t.rows| && saved[k].value == t.rows[t.last[k].value])
  }

  lemma EmptyIsGood(kinds: nat)
    ensures Good(Table([], seq(kinds, _ => None), seq(kinds, _ => None), seq(kinds, _ => 0)), [], [], 0, 0, kinds)
  {
  }

  ghost function PlacedKeepsGood(c: Table, t: Table, saved: seq<Option<Row>>, h: seq<Step>, at: seq<nat>, carried: nat,
        start: nat, kinds: nat): (r: seq<nat>)
    requires Good(t, h, at, carried, start, kinds) && |saved| == kinds
    requires Placed(c, saved, kinds) && Saves(saved, t) && c.cumulative == t.cumulative
    ensures Good(c, h, r, |c.rows|, |h|, kinds)
  {
    CarryKeepsGood(c, t, h, at, carried, start, kinds);
    CarriedAt(c, t, at)
  }

  /** `steps` counts each kind in the history from `start` on. */
  ghost predicate CountsBatch(steps: seq<nat>, h: seq<Step>, start: nat) {
    start <= |h| && forall k :: 0 <= k < |steps| ==> steps[k] == Count(h, k) - Count(h[..start], k)
  }

  lemma CountsBatchPush(steps: seq<nat>, h: seq<Step>, start: nat, x: Step)
    requires CountsBatch(steps, h, start) && x.kind < |steps|
    ensures CountsBatch(steps[x.kind := steps[x.kind] + 1], h + [x], start)
  {
    forall k | 0 <= k < |steps|
      ensures Count(h + [x], k) - Count((h + [x])[..start], k) == steps[x.kind := steps[x.kind] + 1][k]
    {
      CountPush(h, x, k);
      assert (h + [x])[..start] == h[..start];
    }
  }

  lemma LinksOf(t: Table, h: seq<Step>, at: seq<nat>, carried: nat, start: nat, kinds: nat)
    requires Good(t, h, at, carried, start, kinds)
    ensures |t.first| == |t.last| == kinds && |at| == |t.rows| && start <= |h|
    ensures forall k :: 0 <= k < kinds ==> FirstIsRight(t.rows, k, t.first[k]) && LastIsRight(t.rows, k, t.last[k])
    ensures forall i :: 0 <= i < |t.rows| ==> NextIsRight(t.rows, i) && PrevIsRight(t.rows, i)
  {
  }

  lemma LastRowsOf(t: Table, h: seq<Step>, at: seq<nat>, carried: nat, start: nat, kinds: nat)
    requires Good(t, h, at, carried, start, kinds)
    ensures |t.first| == |t.last| == |t.cumulative| == kinds
    ensures forall k :: 0 <= k < kinds && t.last[k].Some? ==>
        t.last[k].value < |t.rows| && t.rows[t.last[k].value].Kind() == k
  {
    forall k | 0 <= k < kinds && t.last[k].Some?
      ensures t.last[k].value < |t.rows| && t.rows[t.last[k].value].Kind() == k
    {
      assert LastIsRight(t.rows, k, t.last[k]);
    }
  }

  /** The cursor of one reader: a row hint per kind, which may be stale. */
  class SegmentCursor {
    var offsetIndex: seq<nat>

    constructor (kinds: nat)
      ensures offsetIndex == seq(kinds, _ => 0)
    {
      offsetIndex := seq(kinds, _ => 0);
    }
  }

  class StreamBroker {
    const kinds: nat
    const header: Size
    const scratch: Size
    const rows: array<Row>

    var file: File
    var pos: nat
    var indexEpoch: nat
    var numSteps: seq<nat>
    var cumulative: seq<nat>
    var numRows: nat
    var chunkComplete: bool
    var firstRow: seq<Option<nat>>
    var lastRow: seq<Option<nat>>

    ghost var hist: seq<Step>   // every step indexed so far, over all batches and chunks
    ghost var at: seq<nat>      // the position in hist of each row
    ghost var carried: nat      // the rows carried over into the current batch
    ghost var start: nat        // the length of hist when the current batch began

    ghost function Rows(): Table
      requires numRows <= rows.Length
      reads this, rows
    {
      Table(rows[..numRows], firstRow, lastRow, cumulative)
    }

    ghost predicate Sane()
      reads this
    {
      && kinds <= rows.Length && numRows <= rows.Length
      && |firstRow| == |lastRow| == |cumulative| == |numSteps| == kinds
      && KindsBelow(file, kinds)
    }

    ghost predicate Indexed()
      reads this, rows
    {
      && Sane()
      && Good(Rows(), hist, at, carried, start, kinds)
      && CountsBatch(numSteps, hist, start)
    }

    ghost predicate Valid()
      reads this, rows
    {
      && Sane()
      && (indexEpoch == 0 ==> hist == [] && numRows == 0 && start == 0 && cumulative == seq(kinds, _ => 0))
      && (indexEpoch > 0 ==> Indexed())
    }

    constructor (kinds: nat, header: Size, scratch: Size, capacity: nat, file: File)
      requires kinds <= capacity && KindsBelow(file, kinds)
      ensures Valid() && fresh(rows) && hist == [] && this.file == file && pos == 0
      ensures this.kinds == kinds && this.header == header && this.scratch == scratch && rows.Length == capacity
    {
      this.kinds := kinds;
      this.header := header;
      this.scratch := scratch;
      this.rows := new Row[capacity];
      this.file := file;
      pos := 0;
      indexEpoch := 0;
      numSteps := seq(kinds, _ => 0);
      cumulative := seq(kinds, _ => 0);
      numRows := 0;
      chunkComplete := false;
      firstRow := seq(kinds, _ => Some(0));
      lastRow := seq(kinds, _ => Some(0));
      hist, at, carried, start := [], [], 0, 0;
    }

    /** The last row of each kind, if the broker was indexed before and has any. */
    method SaveLastRows() returns (saved: seq<Option<Row>>)
      requires |lastRow| == kinds && numRows <= rows.Length
      requires indexEpoch > 0 ==> forall k :: 0 <= k < kinds && lastRow[k].Some? ==> lastRow[k].value < numRows
      ensures |saved| == kinds
      ensures forall k :: 0 <= k < kinds ==>
                saved[k] == if indexEpoch > 0 && lastRow[k].Some? then Some(rows[lastRow[k].value]) else None
    {
      saved := [];
      while |saved| < kinds
        invariant |saved| <= kinds
        invariant forall k :: 0 <= k < |saved| ==>
                    saved[k] == if indexEpoch > 0 && lastRow[k].Some? then Some(rows[lastRow[k].value]) else None
      {
        var k := |saved|;
        saved := saved + [if indexEpoch > 0 && lastRow[k].Some? then Some(rows[lastRow[k].value]) else None];
      }
    }

    /** Put the saved rows first, in the order of kinds. */
    method PlaceRows(saved: seq<Option<Row>>)
      requires |saved| == kinds <= rows.Length
      requires forall k :: 0 <= k < kinds && saved[k].Some? ==> saved[k].value.Kind() == k
      modifies this`numRows, this`firstRow, this`lastRow, rows
      ensures numRows <= rows.Length && Placed(Rows(), saved, kinds) && cumulative == old(cumulative)
      ensures |firstRow| == |lastRow| == kinds
    {
      hide Placed;
      numRows := 0;
      firstRow := seq(kinds, _ => None);
      lastRow := seq(kinds, _ => None);
      var k := 0;
      PlacedNone(Rows(), saved);
      while k < kinds
        invariant numRows <= k <= kinds
        invariant |firstRow| == |lastRow| == kinds
        invariant Placed(Rows(), saved, k)
      {
        ghost var before := Rows();
        if saved[k].Some? {
          rows[numRows] := saved[k].value.(next := None, prev := None);
          firstRow := firstRow[k := Some(numRows)];
          lastRow := lastRow[k := Some(numRows)];
          numRows := numRows + 1;
          assert rows[..numRows] == before.rows + [saved[k].value.(next := None, prev := None)];
        }
        PlacedNext(before, saved, k);
        k := k + 1;
      }
    }

    /** Begin a batch with the last row of each kind. */
    method CarryRows()
      requires Valid()
      modifies this`numSteps, this`numRows, this`firstRow, this`lastRow, this`at, this`carried, this`start, rows
      ensures Indexed() && start == |hist| && numRows == carried
    {
      hide Good, Placed;
      ghost var t, tAt, tCarried, tStart := Table([], seq(kinds, _ => None), seq(kinds, _ => None), cumulative), [], 0, start;
      if indexEpoch > 0 {
        t, tAt, tCarried := Rows(), at, carried;
      } else {
        assert Good(t, hist, tAt, tCarried, tStart, kinds) by { EmptyIsGood(kinds); }
      }
      LastRowsOf(t, hist, tAt, tCarried, tStart, kinds);
      var saved := SaveLastRows();
      assert Saves(saved, t);
      PlaceRows(saved);
      numSteps := seq(kinds, _ => 0);
      at, carried, start := PlacedKeepsGood(Rows(), t, saved, hist, tAt, tCarried, tStart, kinds), numRows, |hist|;
      assert hist[..|hist|] == hist;
    }

    /** Append the row of a scanned unit, and point the last row of its kind to it. */
    method WriteRow(x: Step)
      requires x.kind < kinds && |firstRow| == |lastRow| == |cumulative| == kinds
      requires numRows < rows.Length && (lastRow[x.kind].Some? ==> lastRow[x.kind].value < numRows)
      modifies this`numRows, this`firstRow, this`lastRow, this`cumulative, rows
      ensures numRows == old(numRows) + 1 && Rows() == Pushed(old(Rows()), x)
    {
      var k, r := x.kind, numRows;
      numRows := numRows + 1;
      rows[r] := Row(x, cumulative[k], None, lastRow[k]);
      if lastRow[k].Some? {
        rows[lastRow[k].value] := rows[lastRow[k].value].(next := Some(r));
      } else {
        firstRow := firstRow[k := Some(r)];
      }
      lastRow := lastRow[k := Some(r)];
      cumulative := cumulative[k := cumulative[k] + 1];
      assert rows[..numRows] == Pushed(old(Rows()), x).rows;
    }

    method PushRow(x: Step)
      requires Indexed() && x.kind < kinds && numRows < rows.Length
      modifies this`numSteps, this`numRows, this`firstRow, this`lastRow, this`cumulative, this`at, this`hist, rows
      ensures Indexed() && hist == old(hist) + [x] && numRows == old(numRows) + 1
    {
      hide Good;
      LastRowsOf(Rows(), hist, at, carried, start, kinds);
      PushKeepsGood(Rows(), hist, at, carried, start, kinds, x);
      WriteRow(x);
      numSteps := numSteps[x.kind := numSteps[x.kind] + 1];
      CountsBatchPush(old(numSteps), hist, start, x);
      hist, at := hist + [x], at + [|hist|];
    }

    /** Where a scan cannot go on: the unit at p needs more bytes than the scratch buffer holds. */
    ghost predicate Stuck(p: nat)
      reads this
    {
      TooLong(file, header, scratch, p)
    }

    /** What a scan keeps from the position p0 and history h0 it began with. */
    ghost predicate Scanning(h0: seq<Step>, p0: nat, p: nat)
      reads this, rows
    {
      && Indexed() && start == |h0| && h0 <= hist
      && numRows == carried + |hist| - start && p0 <= p
      && SameSteps(file, header, h0, p0, hist, p) && NewInFile(file, hist, start)
      && NewFit(file, header, scratch, hist, start)
      && (|hist| > start ==> p0 < p && p0 < |file|)
    }

    /** Scan the units at hand: `bytes` of the file from pos, read into the scratch buffer. */
    method ScanBuffer(bytes: nat, carriedRows: nat, ghost h0: seq<Step>, ghost p0: nat)
      returns (used: nat, atEnd: bool)
      requires Scanning(h0, p0, pos) && carriedRows == carried && numRows < rows.Length
      requires pos < |file| && bytes == if scratch < |file| - pos then scratch else |file| - pos
      modifies this`numSteps, this`numRows, this`firstRow, this`lastRow, this`cumulative, this`at, this`hist,
          this`chunkComplete, rows
      ensures Scanning(h0, p0, pos + used)
      ensures used == 0 && !atEnd ==> header > bytes || file[pos].locate > bytes
      ensures used == 0 ==> numRows == old(numRows)
      ensures atEnd ==> numRows < rows.Length && !Stuck(pos + used)
      ensures chunkComplete <==> old(chunkComplete) || (atEnd && carried < numRows && StartsChunk(file, header, pos + used))
      ensures atEnd && !(carried < numRows && StartsChunk(file, header, pos + used)) ==>
          Parse(file, header, pos + used) == []
    {
      hide Good, CountsBatch, SameSteps, NewInFile, NewFit;
      NothingLeft(file, header, pos);
      used, atEnd := 0, false;
      while used + header <= bytes && numRows < rows.Length
        invariant Scanning(h0, p0, pos + used)
        invariant used == 0 ==> numRows == old(numRows)
        invariant chunkComplete == old(chunkComplete)
        decreases |file| - (pos + used)
      {
        var unit := file[pos + used];
        if used + unit.locate > bytes {
          break;
        }
        if unit.kind.None? {
          atEnd := true;
          break;
        }
        if numRows > carriedRows && unit.marker {
          chunkComplete := true;
          atEnd := true;
          break;
        }
        TakeUnit(pos + used, h0, p0);
        used := used + unit.size;
      }
    }

    /** Append the row of the unit at p. */
    method TakeUnit(p: nat, ghost h0: seq<Step>, ghost p0: nat)
      requires Scanning(h0, p0, p) && Readable(file, header, p) && !TooLong(file, header, scratch, p)
      requires numRows < rows.Length && !(numRows > carried && file[p].marker)
      modifies this`numSteps, this`numRows, this`firstRow, this`lastRow, this`cumulative, this`at, this`hist, rows
      ensures Scanning(h0, p0, p + file[p].size) && numRows == old(numRows) + 1
    {
      hide Good, CountsBatch, SameSteps, NewInFile, NewFit, TooLong;
      SameStepsPush(file, header, h0, p0, hist, p);
      NewInFilePush(file, hist, start, p);
      NewFitPush(file, header, scratch, hist, start, StepAt(file, p));
      PushRow(StepAt(file, p));
    }

    /** Scan from pos until the rows are full, the file or chunk ends, or a unit does not fit. */
    method ScanFile(carriedRows: nat, ghost h0: seq<Step>, ghost p0: nat) returns (status: IOStatus)
      requires Scanning(h0, p0, pos) && carriedRows == carried < rows.Length
      modifies this`pos, this`numSteps, this`numRows, this`firstRow, this`lastRow, this`cumulative, this`at, this`hist,
          this`chunkComplete, rows
      ensures Scanning(h0, p0, pos)
      ensures status == if numRows < rows.Length && Stuck(pos) then PayloadTruncatedError else Success
      ensures chunkComplete <==>
              old(chunkComplete) || (status == Success && carried < numRows < rows.Length && StartsChunk(file, header, pos))
      ensures status == Success && numRows < rows.Length && !(carried < numRows && StartsChunk(file, header, pos)) ==>
                Parse(file, header, pos) == []
    {
      hide Good, CountsBatch, Readable, Parse, SameSteps, NewInFile, NewFit;
      status := Success;
      var atEnd := false;
      while status == Success && !atEnd && numRows < rows.Length
        invariant Scanning(h0, p0, pos) && carriedRows == carried
        invariant status == Success || (status == PayloadTruncatedError && !atEnd && numRows < rows.Length && Stuck(pos))
        invariant atEnd ==> numRows < rows.Length && !Stuck(pos)
        invariant chunkComplete <==> old(chunkComplete) || (atEnd && carried < numRows && StartsChunk(file, header, pos))
        invariant atEnd && !(carried < numRows && StartsChunk(file, header, pos)) ==> Parse(file, header, pos) == []
        decreases |file| - pos, !atEnd, status == Success
      {
        NothingLeft(file, header, pos);
        var bytes := if pos >= |file| then 0 else if scratch < |file| - pos then scratch else |file| - pos;
        if bytes == 0 {
          break;
        }
        var used;
        used, atEnd := ScanBuffer(bytes, carriedRows, h0, p0);
        if used == 0 && !atEnd {
          if pos + bytes >= |file| {
            atEnd := true;
          } else {
            status := PayloadTruncatedError;
          }
        }
        pos := pos + used;
      }
    }

    /** Index the next batch of steps. Nothing is lost, invented or reordered: what was indexed before
        and what a single pass would find from the old position is what is indexed now and what a
        single pass would find from the new position. */
    method GenericIndex() returns (status: IOStatus)
      requires Valid()
      modifies this, rows
      ensures Valid() && indexEpoch == old(indexEpoch) + 1 && file == old(file)
      ensures start == |old(hist)| && old(hist) <= hist
      ensures SameSteps(file, header, old(hist), old(pos), hist, pos) && NewInFile(file, hist, start)
      ensures NewFit(file, header, scratch, hist, start)
      ensures status == PayloadTruncatedError <==> carried == rows.Length || (numRows < rows.Length && Stuck(pos))
      ensures status == Success ==>
          |hist| > start && (numRows == rows.Length || Parse(file, header, pos) == [] || StartsChunk(file, header, pos))
      ensures status == ZeroBytesRead ==> |hist| == start && Parse(file, header, pos) == []
      ensures status in {Success, ZeroBytesRead, PayloadTruncatedError}
      ensures numRows == carried + |hist| - start && old(pos) <= pos
      ensures |hist| > start ==> old(pos) < pos && old(pos) < |file|
      ensures chunkComplete <==>
              old(chunkComplete) || pos >= |file| || (status == Success && numRows < rows.Length && StartsChunk(file, header, pos))
    {
      hide Good, CountsBatch, Readable, Parse, SameSteps;
      SameStepsStart(file, header, hist, pos);
      CarryRows();
      var carriedRows := numRows;
      if carriedRows >= rows.Length {
        status := PayloadTruncatedError;
      } else {
        status := ScanFile(carriedRows, old(hist), old(pos));
      }

      NothingLeft(file, header, pos);
      if pos >= |file| {
        chunkComplete := true;
      }
      indexEpoch := indexEpoch + 1;
      if status == Success && numRows <= carriedRows {
        status := ZeroBytesRead;
      }
    }

    /** Row r holds the o-th step of kind k in the whole history. */
    ghost predicate HoldsNth(r: nat, k: nat, o: nat)
      requires numRows <= rows.Length
      reads this, rows
    {
      && r < numRows && r < |at| && rows[r].Kind() == k && rows[r].ordinal == o
      && HoldsStep(rows[r], hist, at[r])
    }

    /** Find a step by its kind and ordinal; the hint may be anything. */
    method FindRow(k: nat, ordinal: nat, hint: nat) returns (status: IOStatus, row: nat)
      requires Valid() && k < kinds
      ensures status == AllRequestedRead <==> ordinal >= Count(hist, k)
      ensures status == Success <==> Retained(hist, start, k, ordinal)
      ensures status == Success ==> indexEpoch > 0 && HoldsNth(row, k, ordinal)
      ensures status in {Success, AllRequestedRead, NoOffsetInData}
    {
      row := 0;
      FindFacts(k, ordinal);
      if ordinal >= cumulative[k] {
        return AllRequestedRead, row;
      }
      var first := firstRow[k];
      if indexEpoch == 0 || first.None? || ordinal < rows[first.value].ordinal {
        return NoOffsetInData, row;
      }
      var r := first.value;
      if hint < numRows && rows[hint].Kind() == k && rows[hint].ordinal <= ordinal {
        r := hint;
      }
      while rows[r].ordinal < ordinal
        invariant r < numRows && rows[r].Kind() == k && rows[r].ordinal <= ordinal
        decreases numRows - r
      {
        NextOfKind(Rows(), hist, at, carried, start, kinds, r);
        r := rows[r].next.value;
      }
      row := r;
      status := Success;
      RowIsRetained(Rows().rows, hist, at, carried, start, kinds, r);
    }

    /** What the catalog says about a kind before the rows are searched. */
    lemma FindFacts(k: nat, o: nat)
      requires Valid() && k < kinds
      ensures cumulative[k] == Count(hist, k)
      ensures indexEpoch > 0 && firstRow[k].Some? ==> firstRow[k].value < numRows && rows[firstRow[k].value].Kind() == k
      ensures indexEpoch > 0 && Retained(hist, start, k, o) ==> firstRow[k].Some? && rows[firstRow[k].value].ordinal <= o
    {
      if indexEpoch > 0 {
        var t := Rows();
        assert FirstIsRight(t.rows, k, t.first[k]);
        if Retained(hist, start, k, o) {
          RowOfRetained(t.rows, hist, at, carried, start, kinds, k, o);
          var i: nat :| i < |t.rows| && t.rows[i].Kind() == k && t.rows[i].ordinal == o;
          if t.first[k].value < i {
            OrdinalsFollowRows(t, hist, at, carried, start, kinds, t.first[k].value, i);
          }
        }
      }
    }

    /** The latest step of `kind` at or before the given step of `refKind`. For a reference scanned in
        the current batch the answer is that of the whole history, whatever the cursor holds. */
    method Preceding(kind: nat, refKind: nat, refOrdinal: nat, cursor: SegmentCursor) returns (status: IOStatus,
          ordinal: nat)
      requires Valid() && kind < kinds && refKind < kinds && |cursor.offsetIndex| == kinds
      modifies cursor
      ensures |cursor.offsetIndex| == kinds
      ensures refOrdinal >= Count(hist, refKind) ==> status == AllRequestedRead
      ensures refOrdinal + 1 < Count(hist[..start], refKind) ==> status == NoOffsetInData
      ensures status == Success ==> Retained(hist, start, refKind, refOrdinal)
      ensures Retained(hist, start, refKind, refOrdinal) ==>
                AnswersByRow(kind, refKind, refOrdinal, if status == Success then Some(ordinal) else None)
      ensures forall p: nat :: start <= p && IsNth(hist, refKind, refOrdinal, p) ==>
                if Count(hist[..p + 1], kind) == 0 then status == NoOffsetInData
                else status == Success && ordinal == Count(hist[..p + 1], kind) - 1
    {
      hide Good, CountsBatch, Count;
      var refRow;
      ordinal := 0;
      status, refRow := FindRow(refKind, refOrdinal, cursor.offsetIndex[refKind]);
      BatchBegin();
      RetainedBatch(hist, start, refKind, refOrdinal);
      if status != Success {
        return;
      }
      cursor.offsetIndex := cursor.offsetIndex[refKind := refRow];

      var r := cursor.offsetIndex[kind];
      var found;
      if r < numRows && rows[r].Kind() == kind && r < refRow {
        found := WalkForward(kind, r, refRow);
      } else {
        found := WalkBack(kind, refRow);
      }
      ReferenceInBatch(Rows(), hist, at, carried, start, kinds, kind, refKind, refOrdinal, refRow, found);
      if found.None? {
        status := NoOffsetInData;
      } else {
        cursor.offsetIndex := cursor.offsetIndex[kind := found.value];
        ordinal := rows[found.value].ordinal;
      }
      assert NearestBefore(kind, refRow, found);
    }

    /** The answer is the ordinal of the nearest row of a kind at or before the row of the reference. */
    ghost predicate AnswersByRow(kind: nat, refKind: nat, refOrdinal: nat, answer: Option<nat>)
      requires numRows <= rows.Length
      reads this, rows
    {
      exists ref: nat, found :: ref < numRows && HoldsNth(ref, refKind, refOrdinal) && NearestBefore(kind, ref, found)
        && answer == OrdinalAt(found)
    }

    ghost function OrdinalAt(row: Option<nat>): Option<nat>
      reads this, rows
    {
      if row.Some? && row.value < rows.Length then Some(rows[row.value].ordinal) else None
    }

    lemma BatchBegin()
      requires Valid()
      ensures start <= |hist|
    {
    }

    /** `found` is the nearest row of a kind at or before row `ref`. */
    ghost predicate NearestBefore(kind: nat, ref: nat, found: Option<nat>)
      requires numRows <= rows.Length && ref < numRows
      reads this, rows
    {
      Nearest(rows[..numRows], kind, ref, found)
    }

    method WalkForward(kind: nat, hint: nat, ref: nat) returns (found: Option<nat>)
      requires Valid() && indexEpoch > 0 && hint < ref < numRows && rows[hint].Kind() == kind && rows[ref].Kind() < kinds
      requires rows[ref].Kind() != kind
      ensures NearestBefore(kind, ref, found)
    {
      var r := hint;
      assert NextIsRight(Rows().rows, r);
      while rows[r].next.Some? && rows[r].next.value < ref
        invariant r < ref && rows[r].Kind() == kind && NextIsRight(Rows().rows, r)
        decreases ref - r
      {
        r := rows[r].next.value;
        assert NextIsRight(Rows().rows, r);
      }
      found := Some(r);
    }

    method WalkBack(kind: nat, ref: nat) returns (found: Option<nat>)
      requires Valid() && indexEpoch > 0 && kind < kinds && ref < numRows
      ensures NearestBefore(kind, ref, found)
    {
      hide Good, CountsBatch;
      ghost var t := Rows();
      LinksOf(t, hist, at, carried, start, kinds);
      found := lastRow[kind];
      assert LastIsRight(t.rows, kind, t.last[kind]);
      while found.Some? && found.value > ref
        invariant found.Some? ==> found.value < numRows && t.rows[found.value].Kind() == kind
        invariant forall i :: (if found.Some? then found.value + 1 else 0) <= i <= ref ==> t.rows[i].Kind() != kind
        decreases if found.Some? then found.value + 1 else 0
      {
        assert PrevIsRight(t.rows, found.value);
        found := rows[found.value].prev;
      }
    }

    /** Move on to the next chunk of a chain; without a new file, the scan goes on where it was. */
    method AdvanceChunk(next: Option<File>)
      requires Valid() && (next.Some? ==> KindsBelow(next.value, kinds))
      modifies this`file, this`pos, this`chunkComplete
      ensures Valid() && !chunkComplete
      ensures next.Some? ==> file == next.value && pos == 0
      ensures next.None? ==> file == old(file) && pos == old(pos)
    {
      if next.Some? {
        file := next.value;
        pos := 0;
      }
      chunkComplete := false;
    }

    /** The steps of a kind in the current batch, the carried one first. */
    method VisitSteps(k: nat) returns (visited: seq<(nat, nat)>)
      requires Valid() && indexEpoch > 0 && k < kinds
      ensures forall j :: 0 <= j < |visited| ==>
                exists p: nat :: IsNth(hist, k, visited[j].0, p) && visited[j].1 == hist[p].key
      ensures start <= |hist| && (|visited| > 0 ==> visited[0].0 + |visited| == Count(hist, k))
      ensures forall j :: 0 <= j < |visited| ==> visited[j].0 == visited[0].0 + j
      ensures forall o :: Retained(hist, start, k, o) ==> |visited| > 0 && visited[0].0 <= o
    {
      hide Good, CountsBatch;
      visited := [];
      var r := firstRow[k];
      ghost var t := Rows();
      LinksOf(t, hist, at, carried, start, kinds);
      assert FirstIsRight(t.rows, k, t.first[k]) && LastIsRight(t.rows, k, t.last[k]);
      while r.Some?
        invariant r.Some? ==> r.value < numRows && rows[r.value].Kind() == k
        invariant forall j :: 0 <= j < |visited| ==>
                    exists p: nat :: IsNth(hist, k, visited[j].0, p) && visited[j].1 == hist[p].key
        invariant forall j :: 0 <= j < |visited| ==> visited[j].0 == visited[0].0 + j
        invariant |visited| > 0 && r.Some? ==> rows[r.value].ordinal == visited[0].0 + |visited|
        invariant |visited| > 0 && r.None? ==> visited[0].0 + |visited| == Count(hist, k)
        invariant |visited| > 0 ==> firstRow[k].Some? && visited[0].0 == rows[firstRow[k].value].ordinal
        invariant |visited| == 0 ==> r == firstRow[k]
        decreases if r.Some? then numRows - r.value else 0
      {
        var i := r.value;
        NextOfKind(t, hist, at, carried, start, kinds, i);
        visited := visited + [(rows[i].ordinal, rows[i].step.key)];
        r := rows[i].next;
      }
      forall o | Retained(hist, start, k, o)
        ensures |visited| > 0 && visited[0].0 <= o
      {
        FindFacts(k, o);
      }
    }
  }

  ghost predicate Nearest(rows: seq<Row>, kind: nat, ref: nat, found: Option<nat>)
    requires ref < |rows|
  {
    match found
    case Some(r) => r <= ref && rows[r].Kind() == kind && forall i :: r < i <= ref ==> rows[i].Kind() != kind
    case None => forall i :: 0 <= i <= ref ==> rows[i].Kind() != kind
  }

  /** Along the list of a kind ordinals go up by one, up to the count of the whole history. */
  lemma NextOfKind(t: Table, h: seq<Step>, at: seq<nat>, carried: nat, start: nat, kinds: nat, r: nat)
    requires Good(t, h, at, carried, start, kinds) && r < |t.rows|
    ensures match t.rows[r].next
            case Some(n) => r < n < |t.rows| && t.rows[n].Kind() == t.rows[r].Kind()
                && t.rows[n].ordinal == t.rows[r].ordinal + 1
            case None => t.rows[r].ordinal + 1 == Count(h, t.rows[r].Kind())
    ensures r < |at| && HoldsStep(t.rows[r], h, at[r])
  {
    var k := t.rows[r].Kind();
    assert NextIsRight(t.rows, r) && LastIsRight(t.rows, k, t.last[k]);
  }

  /** A step of the current batch is retained, and one before the carried step is not. */
  lemma RetainedBatch(h: seq<Step>, start: nat, k: nat, o: nat)
    requires start <= |h|
    ensures forall p: nat :: start <= p && IsNth(h, k, o, p) ==> Retained(h, start, k, o)
    ensures o + 1 < Count(h[..start], k) ==> !Retained(h, start, k, o) && o < Count(h, k)
  {
    assert h[..|h|] == h;
    CountMonotone(h, start, |h|, k);
    forall p: nat | start <= p && IsNth(h, k, o, p)
      ensures Retained(h, start, k, o)
    {
      CountMonotone(h, start, p, k);
      CountMonotone(h, p, |h|, k);
    }
  }

  /** For a reference in the current batch, its nearest row of a kind answers for the whole history. */
  lemma ReferenceInBatch(t: Table, h: seq<Step>, at: seq<nat>, carried: nat, start: nat, kinds: nat,
                         kind: nat, refKind: nat, refOrdinal: nat, ref: nat, found: Option<nat>)
    requires Good(t, h, at, carried, start, kinds) && kind < kinds
    requires ref < |t.rows| && t.rows[ref].Kind() == refKind && t.rows[ref].ordinal == refOrdinal
    requires Nearest(t.rows, kind, ref, found)
    ensures forall p: nat :: start <= p && IsNth(h, refKind, refOrdinal, p) ==>
              Count(h[..p + 1], kind) == if found.Some? then t.rows[found.value].ordinal + 1 else 0
  {
    hide Count, Linked, Numbered;
    forall p: nat | start <= p && IsNth(h, refKind, refOrdinal, p)
      ensures Count(h[..p + 1], kind) == if found.Some? then t.rows[found.value].ordinal + 1 else 0
    {
      assert HoldsStep(t.rows[ref], h, at[ref]);
      NthUnique(h, refKind, refOrdinal, p, at[ref]);
      NearestRowCounts(t.rows, h, at, carried, start, kinds, kind, ref, found);
    }
  }

  // ----- Over successive batches

  /** Batches cut from one file concatenate to its single-pass parse, wherever they are cut. */
  lemma {:induction false} BatchesConcatenate(file: File, header: nat, hists: seq<seq<Step>>, positions: seq<nat>)
    requires |hists| == |positions| > 0 && hists[0] == [] && positions[0] == 0
    requires forall i :: 0 <= i < |hists| - 1 ==>
        SameSteps(file, header, hists[i], positions[i], hists[i + 1], positions[i + 1])
    ensures hists[|hists| - 1] <= Parse(file, header, 0)
    ensures Parse(file, header, positions[|positions| - 1]) == [] ==> hists[|hists| - 1] == Parse(file, header, 0)
  {
    var n := |hists| - 1;
    assert hists[n] + Parse(file, header, positions[n]) == Parse(file, header, 0) by {
      BatchesKeepWhole(file, header, hists, positions, n);
    }
  }

  lemma {:induction false} BatchesKeepWhole(file: File, header: nat, hists: seq<seq<Step>>, positions: seq<nat>, n: nat)
    requires n < |hists| == |positions| && hists[0] == [] && positions[0] == 0
    requires forall i :: 0 <= i < |hists| - 1 ==>
        SameSteps(file, header, hists[i], positions[i], hists[i + 1], positions[i + 1])
    ensures hists[n] + Parse(file, header, positions[n]) == Parse(file, header, 0)
  {
    if n > 0 {
      BatchesKeepWhole(file, header, hists, positions, n - 1);
      assert SameSteps(file, header, hists[n - 1], positions[n - 1], hists[n], positions[n]);
    }
  }

  /** Scratch large enough for the header and the locating bytes of every unit. */
  predicate UnitsFit(file: File, header: nat, scratch: nat) {
    header <= scratch && forall p :: 0 <= p < |file| ==> file[p].locate <= scratch
  }

  lemma {:induction false} AscendingKinds(rows: seq<Row>, carried: nat, kinds: nat, i: nat)
    requires i < carried <= |rows|
    requires forall i, j :: 0 <= i < j < carried ==> rows[i].Kind() < rows[j].Kind()
    ensures i <= rows[i].Kind()
  {
    if i > 0 {
      AscendingKinds(rows, carried, kinds, i - 1);
    }
  }

  /** With rows to spare for the carried ones, and scratch for every unit, indexing never fails. */
  lemma RoomNeverFails(b: StreamBroker)
    requires b.Indexed() && b.kinds < b.rows.Length && UnitsFit(b.file, b.header, b.scratch)
    ensures b.carried < b.rows.Length && !b.Stuck(b.pos)
  {
    if b.carried > 0 {
      AscendingKinds(b.Rows().rows, b.carried, b.kinds, b.carried - 1);
      assert b.Rows().rows[b.carried - 1].Kind() < b.kinds;
    }
  }

  /** After a call that had rows for everything, and found no unit that starts a further chunk, nothing is left. */
  lemma {:induction false} OneCallIsEnough(b: StreamBroker, h0: seq<Step>, p0: nat, status: IOStatus)
    requires b.Indexed() && UnitsFit(b.file, b.header, b.scratch) && forall p :: 0 <= p < |b.file| ==> !b.file[p].marker
    requires SameSteps(b.file, b.header, h0, p0, b.hist, b.pos) && b.start == |h0|
    requires b.kinds + |Parse(b.file, b.header, p0)| < b.rows.Length && b.numRows == b.carried + |b.hist| - b.start
    requires status == PayloadTruncatedError <==>
        b.carried == b.rows.Length || (b.numRows < b.rows.Length && b.Stuck(b.pos))
    requires status == Success ==>
        b.numRows == b.rows.Length || Parse(b.file, b.header, b.pos) == [] || StartsChunk(b.file, b.header, b.pos)
    requires status == ZeroBytesRead ==> Parse(b.file, b.header, b.pos) == []
    requires status in {Success, ZeroBytesRead, PayloadTruncatedError}
    ensures status != PayloadTruncatedError
    ensures b.hist == h0 + Parse(b.file, b.header, p0) && Parse(b.file, b.header, b.pos) == []
  {
    RoomNeverFails(b);
    hide Linked, Numbered, Describes, CountsBatch, Parse, StreamBroker.Stuck;
    if b.carried > 0 {
      AscendingKinds(b.Rows().rows, b.carried, b.kinds, b.carried - 1);
      KindBelow(b, b.carried - 1);
    }
  }

  lemma KindBelow(b: StreamBroker, i: nat)
    requires b.Indexed() && i < b.numRows
    ensures b.rows[i].Kind() < b.kinds
  {
    assert b.Rows().rows[i].Kind() < b.kinds;
  }
}
