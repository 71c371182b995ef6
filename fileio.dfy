/** The digitized-airfoil reader `read_dat` of src/fileio.c. A `.dat` file is
    a header line (the airfoil's label) followed by lines that are blank, a
    pair of numbers, or anything else. The reader stores the pairs in order,
    skips one leading point-count declaration, records a single Lednicer
    break (a blank line between the upper and the lower surface), rejects
    files that overflow the point buffer, and finally decides whether the
    trailing edge is closed. Lines reach the model already classified: the
    `fgets`/`sscanf` plumbing is outside it. */
module FileIO {
  import opened Types
  import opened Utils

  /** One body line after `rstrip`: empty, a successful two-number scan, or
      something that does not scan as two numbers. */
  datatype Line = Blank | Pair(x: real, y: real) | Bad

  /** The file as the reader sees it: its first line (None when the file has
      none) and the lines after it. */
  datatype DatFile = DatFile(header: Option<string>, lines: seq<Line>)

  /** The reader's error codes. Write and unknown errors belong to the STL
      writer and to callers; the reader itself never returns them. */
  datatype FileError = NoError | WriteError | ReadError | FormatError | EmptyError | SizeError | UnknownError

  /** The fields of an airfoil record, as values. `buf` is the whole point
      buffer; its length is the buffer capacity. */
  datatype Record = Record(title: string, buf: seq<Vec2>, numPts: int, lednicer: int, closedTe: bool)

  /** The airfoil record the reader fills in. */
  class Airfoil {
    var title: string
    var pts: array<Vec2>
    var numPts: int
    var lednicerIndex: int
    var hasClosedTe: bool

    /** An empty record with room for `capacity` points. */
    constructor(capacity: nat)
      ensures fresh(pts) && pts.Length == capacity
      ensures title == "" && numPts == 0 && lednicerIndex == 0 && !hasClosedTe
    {
      title := "";
      pts := new Vec2[capacity](_ => Vec2(0.0, 0.0));
      numPts := 0;
      lednicerIndex := 0;
      hasClosedTe := false;
    }

    function Contents(): Record
      reads this, pts
    {
      Record(title, pts[..], numPts, lednicerIndex, hasClosedTe)
    }
  }

  // ---------------------------------------------------------------------
  // The reading loop as a state machine

  /** The state of the reading loop: the point buffer, the number of points
      stored, the Lednicer index, and the two flags of the loop. */
  datatype Scan = Scan(buf: seq<Vec2>, numPts: nat, lednicer: int, lastEmpty: bool, countsFound: bool)

  /** The result of reading some lines: NoError to go on, or the error that
      ended the loop, with the state at that point. */
  datatype Progress = Progress(err: FileError, state: Scan)

  /** The states the loop can be in: the count is within the buffer, and the
      Lednicer index is 0 or the index of a stored point after the first two. */
  predicate Wf(s: Scan)
  {
    s.numPts <= |s.buf| && (s.lednicer == 0 || 2 <= s.lednicer < s.numPts)
  }

  /** A pair that looks like a point-count declaration. */
  predicate Big(v: Vec2)
  {
    v.x > 2.0 && v.y > 2.0
  }

  /** One iteration of the loop on one line. */
  function Step(s: Scan, line: Line): (p: Progress)
    ensures Wf(s) ==> Wf(p.state) && |p.state.buf| == |s.buf|
  {
    match line
    case Blank => Progress(NoError, s.(lastEmpty := true))
    case Bad => Progress(FormatError, s)
    case Pair(x, y) =>
      if Big(Vec2(x, y)) && s.numPts == 0 then
        if s.countsFound then Progress(FormatError, s)
        else Progress(NoError, s.(countsFound := true))
      else if s.numPts < |s.buf| then
        var buf := s.buf[s.numPts := Vec2(x, y)];
        var isBreak := s.numPts > 1 && s.lastEmpty;
        if isBreak && s.lednicer > 0 then Progress(FormatError, s.(buf := buf))
        else Progress(NoError, Scan(buf, s.numPts + 1, if isBreak then s.numPts else s.lednicer, false, s.countsFound))
      else Progress(SizeError, s)
  }

  /** The loop over the remaining lines: it stops at the first error. */
  function Run(s: Scan, lines: seq<Line>): (p: Progress)
    ensures Wf(s) ==> Wf(p.state) && |p.state.buf| == |s.buf|
    decreases |lines|
  {
    if |lines| == 0 then Progress(NoError, s)
    else
      var q := Step(s, lines[0]);
      if q.err != NoError then q else Run(q.state, lines[1..])
  }

  /** The state the loop starts in, over the record's buffer. */
  function Initial(buf: seq<Vec2>): (s: Scan)
    ensures Wf(s)
  {
    Scan(buf, 0, 0, false, false)
  }

  /** The slot that holds the upper trailing-edge point: the point before the
      Lednicer break, or the first point of a Selig file. */
  function TeUpperSlot(lednicer: int): int
  {
    if lednicer != 0 then lednicer - 1 else 0
  }

  /** The trailing edge is closed when its two points have the same height
      to within a micrometre, or when the upper one lies aft of the lower. */
  predicate ClosedTe(upper: Vec2, lower: Vec2)
  {
    Abs(upper.y - lower.y) < METERS_PER_MICROMETER || upper.x - lower.x > METERS_PER_MICROMETER
  }

  /** The outcome of reading a file: the error code and the record after. */
  datatype DatResult = DatResult(err: FileError, after: Record)

  /** What `read_dat` does to a record, with the correction that a file with
      a header and no points is reported as empty instead of reaching the
      closure step with no last point. */
  function ReadDatSpec(file: Option<DatFile>, before: Record): (r: DatResult)
  {
    match file
    case None => DatResult(ReadError, before)
    case Some(f) =>
      var reset := before.(numPts := 0, lednicer := 0);
      match f.header
      case None => DatResult(EmptyError, reset)
      case Some(header) =>
        var p := Run(Initial(before.buf), f.lines);
        var read := reset.(title := TrimEnd(header), buf := p.state.buf, numPts := p.state.numPts, lednicer := p.state.lednicer);
        if p.err != NoError then DatResult(p.err, read)
        else if p.state.numPts == 0 then DatResult(EmptyError, read)
        else
          var upper := p.state.buf[TeUpperSlot(p.state.lednicer)];
          var lower := p.state.buf[p.state.numPts - 1];
          DatResult(NoError, read.(closedTe := ClosedTe(upper, lower)))
  }

  // ---------------------------------------------------------------------
  // The reader

  /** `read_dat`: read `file` into `airfoil`, returning the error code. */
  method ReadDat(file: Option<DatFile>, airfoil: Airfoil) returns (err: FileError)
    modifies airfoil, airfoil.pts
    ensures airfoil.pts == old(airfoil.pts)
    ensures DatResult(err, airfoil.Contents()) == ReadDatSpec(file, old(airfoil.Contents()))
  {
    if file.None? {
      return ReadError;
    }
    var f := file.value;
    airfoil.numPts := 0;
    airfoil.lednicerIndex := 0;
    if f.header.None? {
      return EmptyError;
    }
    airfoil.title := TrimEnd(f.header.value);
    err := ReadBody(f.lines, airfoil);
    if err != NoError {
      return err;
    }
    if airfoil.numPts == 0 {
      return EmptyError;
    }
    var teUpper := airfoil.pts[TeUpperSlot(airfoil.lednicerIndex)];
    var teLower := airfoil.pts[airfoil.numPts - 1];
    airfoil.hasClosedTe := Abs(teUpper.y - teLower.y) < METERS_PER_MICROMETER || teUpper.x - teLower.x > METERS_PER_MICROMETER;
    return NoError;
  }

  /** The loop of `read_dat` over the lines after the header: it leaves the
      point buffer, the count and the Lednicer index as the state machine
      does, and touches nothing else. */
  method ReadBody(lines: seq<Line>, airfoil: Airfoil) returns (err: FileError)
    requires airfoil.numPts == 0 && airfoil.lednicerIndex == 0
    modifies airfoil, airfoil.pts
    ensures var p := Run(Initial(old(airfoil.pts[..])), lines);
      err == p.err && airfoil.pts[..] == p.state.buf &&
      airfoil.numPts == p.state.numPts && airfoil.lednicerIndex == p.state.lednicer
    ensures airfoil.pts == old(airfoil.pts) && airfoil.title == old(airfoil.title)
    ensures airfoil.hasClosedTe == old(airfoil.hasClosedTe)
  {
    var lastEmpty := false;
    var countsFound := false;
    ghost var whole := Run(Initial(airfoil.pts[..]), lines);
    var i := 0;
    while i < |lines|
      invariant 0 <= i <= |lines|
      invariant airfoil.pts == old(airfoil.pts) && airfoil.title == old(airfoil.title)
      invariant airfoil.hasClosedTe == old(airfoil.hasClosedTe)
      invariant 0 <= airfoil.numPts
      invariant Wf(Scan(airfoil.pts[..], airfoil.numPts, airfoil.lednicerIndex, lastEmpty, countsFound))
      invariant whole == Run(Scan(airfoil.pts[..], airfoil.numPts, airfoil.lednicerIndex, lastEmpty, countsFound), lines[i..])
      decreases |lines| - i
    {
      ghost var cur := Scan(airfoil.pts[..], airfoil.numPts, airfoil.lednicerIndex, lastEmpty, countsFound);
      ghost var step := Step(cur, lines[i]);
      assert whole == if step.err != NoError then step else Run(step.state, lines[i + 1..]) by {
        assert lines[i..][0] == lines[i] && lines[i..][1..] == lines[i + 1..];
      }
      err, lastEmpty, countsFound := ReadLine(lines[i], airfoil, lastEmpty, countsFound);
      if err != NoError {
        return;
      }
      i := i + 1;
    }
    err := NoError;
  }

  /** One pass of the loop of `read_dat`: the line's effect on the record
      and on the two flags is one step of the state machine. */
  method ReadLine(line: Line, airfoil: Airfoil, lastEmpty: bool, countsFound: bool)
    returns (err: FileError, lastEmpty': bool, countsFound': bool)
    requires 0 <= airfoil.numPts
    modifies airfoil, airfoil.pts
    ensures var p := Step(Scan(old(airfoil.pts[..]), old(airfoil.numPts) as nat, old(airfoil.lednicerIndex), lastEmpty, countsFound), line);
      err == p.err && airfoil.pts[..] == p.state.buf && airfoil.numPts == p.state.numPts &&
      airfoil.lednicerIndex == p.state.lednicer && (err == NoError ==> lastEmpty' == p.state.lastEmpty && countsFound' == p.state.countsFound)
    ensures airfoil.pts == old(airfoil.pts) && airfoil.title == old(airfoil.title)
    ensures airfoil.hasClosedTe == old(airfoil.hasClosedTe)
  {
    err, lastEmpty', countsFound' := NoError, lastEmpty, countsFound;
    match line {
    case Blank =>
      lastEmpty' := true;
    case Bad =>
      err := FormatError;
    case Pair(x, y) =>
      if x > 2.0 && y > 2.0 && airfoil.numPts == 0 {
        if countsFound {
          return FormatError, lastEmpty', countsFound';
        }
        countsFound' := true;
      } else if airfoil.numPts < airfoil.pts.Length {
        airfoil.pts[airfoil.numPts] := Vec2(x, y);
        if airfoil.numPts > 1 && lastEmpty {
          if airfoil.lednicerIndex > 0 {
            return FormatError, lastEmpty', countsFound';
          }
          airfoil.lednicerIndex := airfoil.numPts;
        }
        airfoil.numPts := airfoil.numPts + 1;
        lastEmpty' := false;
      } else {
        err := SizeError;
      }
    }
  }

  // ---------------------------------------------------------------------
  // What the reader stores

  /** The pairs of a file body, in file order. */
  function Pairs(lines: seq<Line>): (ps: seq<Vec2>)
    ensures |ps| <= |lines|
  {
    if |lines| == 0 then []
    else if lines[0].Pair? then [Vec2(lines[0].x, lines[0].y)] + Pairs(lines[1..])
    else Pairs(lines[1..])
  }

  /** The pairs that are points: all of them, except a first pair that
      declares the point counts. */
  function Stored(ps: seq<Vec2>): seq<Vec2>
  {
    if |ps| > 0 && Big(ps[0]) then ps[1..] else ps
  }

  /** A loop that finishes without error has appended the remaining pairs to
      the stored points, dropping a count declaration only while no point is
      stored; a second leading declaration, or one after an earlier one,
      would have failed. */
  lemma {:induction false} RunStoresInOrder(s: Scan, lines: seq<Line>)
    requires Wf(s)
    ensures var p := Run(s, lines); var ps := Pairs(lines);
      p.err == NoError ==>
        p.state.buf[..p.state.numPts] == s.buf[..s.numPts] + (if s.numPts == 0 then Stored(ps) else ps) &&
        (s.numPts == 0 && |ps| > 0 && Big(ps[0]) ==> !s.countsFound && !(|ps| > 1 && Big(ps[1])))
    decreases |lines|
  {
    if |lines| > 0 {
      var q := Step(s, lines[0]);
      var rest := lines[1..];
      if q.err == NoError {
        RunStoresInOrder(q.state, rest);
        match lines[0]
        case Blank =>
        case Bad =>
        case Pair(x, y) =>
          if !(Big(Vec2(x, y)) && s.numPts == 0) {
            StoreAppends(s.buf, s.numPts, Vec2(x, y));
          }
      }
    }
  }

  /** Storing a point at the count appends it to the stored points. */
  lemma StoreAppends(buf: seq<Vec2>, n: nat, v: Vec2)
    requires n < |buf|
    ensures buf[n := v][..n + 1] == buf[..n] + [v]
  {
  }

  /** A loop that finishes without error only adds points, and leaves the
      slots it did not fill as they were. */
  lemma {:induction false} RunKeepsTail(s: Scan, lines: seq<Line>)
    requires Wf(s)
    ensures var p := Run(s, lines);
      p.err == NoError ==>
        p.state.numPts >= s.numPts && p.state.buf[p.state.numPts..] == s.buf[p.state.numPts..]
    decreases |lines|
  {
    if |lines| > 0 {
      var q := Step(s, lines[0]);
      if q.err == NoError {
        RunKeepsTail(q.state, lines[1..]);
      }
    }
  }

  /** The loop only fails with a format or a size error, and a size error
      means that the buffer is full. */
  lemma {:induction false} RunErrors(s: Scan, lines: seq<Line>)
    requires Wf(s)
    ensures var p := Run(s, lines);
      (p.err == NoError || p.err == FormatError || p.err == SizeError) &&
      (p.err == SizeError ==> p.state.numPts == |p.state.buf|)
    decreases |lines|
  {
    if |lines| > 0 && Step(s, lines[0]).err == NoError {
      RunErrors(Step(s, lines[0]).state, lines[1..]);
    }
  }

  /** A loop that finishes without error met no malformed line. */
  lemma {:induction false} RunRejectsBadLines(s: Scan, lines: seq<Line>)
    ensures Run(s, lines).err == NoError ==> Bad !in lines
    decreases |lines|
  {
    if |lines| > 0 && Step(s, lines[0]).err == NoError {
      RunRejectsBadLines(Step(s, lines[0]).state, lines[1..]);
      assert lines == [lines[0]] + lines[1..];
    }
  }

  // ---------------------------------------------------------------------
  // The Lednicer break

  function Blanks(n: nat): (r: seq<Line>)
    ensures |r| == n && forall k :: 0 <= k < n ==> r[k] == Blank
  {
    seq(n, _ => Blank)
  }

  /** Without blank lines the Lednicer index stays 0: the file is read as
      Selig, one surface after the other with no break. */
  lemma {:induction false} RunWithoutBlanksIsSelig(s: Scan, lines: seq<Line>)
    requires s.lednicer == 0 && !s.lastEmpty
    requires Blank !in lines
    ensures Run(s, lines).state.lednicer == 0
    decreases |lines|
  {
    if |lines| > 0 {
      assert lines == [lines[0]] + lines[1..];
      var q := Step(s, lines[0]);
      if q.err == NoError {
        RunWithoutBlanksIsSelig(q.state, lines[1..]);
      }
    }
  }

  /** Blank lines leave the stored points alone and set the blank-line flag. */
  lemma {:induction false} RunOverBlanks(s: Scan, n: nat, rest: seq<Line>)
    requires n >= 1
    ensures Run(s, Blanks(n) + rest) == Run(s.(lastEmpty := true), rest)
    decreases n
  {
    var lines := Blanks(n) + rest;
    assert lines[0] == Blank;
    if n == 1 {
      assert lines[1..] == rest;
    } else {
      assert lines[1..] == Blanks(n - 1) + rest;
      RunOverBlanks(s.(lastEmpty := true), n - 1, rest);
    }
  }

  /** Blank lines followed by a point, once at least two points are stored
      and no break has been seen, mark that point's index as the Lednicer
      break and store the point. */
  lemma LednicerBreakIsMarked(s: Scan, n: nat, x: real, y: real, rest: seq<Line>)
    requires Wf(s) && s.lednicer == 0 && 2 <= s.numPts < |s.buf| && n >= 1
    ensures Run(s, Blanks(n) + [Pair(x, y)] + rest)
         == Run(Scan(s.buf[s.numPts := Vec2(x, y)], s.numPts + 1, s.numPts, false, s.countsFound), rest)
  {
    var t := s.(lastEmpty := true);
    var after := Scan(s.buf[s.numPts := Vec2(x, y)], s.numPts + 1, s.numPts, false, s.countsFound);
    RunOverBlanks(s, n, [Pair(x, y)] + rest);
    assert Blanks(n) + [Pair(x, y)] + rest == Blanks(n) + ([Pair(x, y)] + rest);
    assert Step(t, Pair(x, y)) == Progress(NoError, after);
    assert ([Pair(x, y)] + rest)[1..] == rest;
  }

  /** A second break is a format error. */
  lemma SecondBreakFails(s: Scan, n: nat, x: real, y: real, rest: seq<Line>)
    requires Wf(s) && s.lednicer > 0 && s.numPts < |s.buf| && n >= 1
    ensures Run(s, Blanks(n) + [Pair(x, y)] + rest).err == FormatError
  {
    var t := s.(lastEmpty := true);
    RunOverBlanks(s, n, [Pair(x, y)] + rest);
    assert Blanks(n) + [Pair(x, y)] + rest == Blanks(n) + ([Pair(x, y)] + rest);
    assert Step(t, Pair(x, y)).err == FormatError;
    assert ([Pair(x, y)] + rest)[0] == Pair(x, y);
  }

  // ---------------------------------------------------------------------
  // Properties of the whole reader

  /** The reader reports a missing file, and only a missing file, as a read
      error; an empty report means a missing header or no stored point; it
      never reports a write or an unknown error; a size error leaves the
      buffer full. */
  lemma ReadDatErrors(file: Option<DatFile>, before: Record)
    ensures var r := ReadDatSpec(file, before);
      (r.err == ReadError <==> file.None?) &&
      (r.err == EmptyError <==>
         (file.Some? && (file.value.header.None? ||
           (Run(Initial(before.buf), file.value.lines).err == NoError && r.after.numPts == 0)))) &&
      r.err != WriteError && r.err != UnknownError &&
      (r.err == SizeError ==> r.after.numPts == |before.buf|)
  {
    if file.Some? && file.value.header.Some? {
      RunErrors(Initial(before.buf), file.value.lines);
    }
  }

  /** A file read without error had a header and no malformed line, held at
      most as many points as the buffer, and at most one count declaration,
      in front of every point; its points, without that declaration, fill the
      front of the buffer in file order and the rest of the buffer is as it
      was; the label is the stripped header; the Lednicer index is 0 or the
      index of a point after the first two. */
  lemma ReadDatStoresPoints(file: Option<DatFile>, before: Record)
    requires ReadDatSpec(file, before).err == NoError
    ensures file.Some? && file.value.header.Some?
    ensures var r := ReadDatSpec(file, before).after; var ps := Pairs(file.value.lines);
      Bad !in file.value.lines &&
      |r.buf| == |before.buf| && 1 <= r.numPts <= |before.buf| &&
      r.buf[..r.numPts] == Stored(ps) &&
      r.buf[r.numPts..] == before.buf[r.numPts..] &&
      !(|ps| > 1 && Big(ps[0]) && Big(ps[1])) &&
      r.title == TrimEnd(file.value.header.value) &&
      (r.lednicer == 0 || 2 <= r.lednicer < r.numPts)
  {
    RunStoresInOrder(Initial(before.buf), file.value.lines);
    RunKeepsTail(Initial(before.buf), file.value.lines);
    RunRejectsBadLines(Initial(before.buf), file.value.lines);
  }

  /** A file without blank lines is read as Selig. */
  lemma ReadDatSelig(file: Option<DatFile>, before: Record)
    requires file.Some? && file.value.header.Some? && Blank !in file.value.lines
    ensures ReadDatSpec(file, before).after.lednicer == 0
  {
    RunWithoutBlanksIsSelig(Initial(before.buf), file.value.lines);
  }

  /** The closure decision of a successful read compares two stored points:
      the upper trailing edge and the last point. */
  lemma ReadDatClosure(file: Option<DatFile>, before: Record)
    requires ReadDatSpec(file, before).err == NoError
    ensures var r := ReadDatSpec(file, before).after;
      0 <= TeUpperSlot(r.lednicer) < r.numPts <= |r.buf| &&
      r.closedTe == ClosedTe(r.buf[TeUpperSlot(r.lednicer)], r.buf[r.numPts - 1])
  {
    ReadDatStoresPoints(file, before);
  }

  // ---------------------------------------------------------------------
  // A header followed by nothing but blank lines

  /** The two slots the closure step of src/fileio.c reads, as written: the
      upper trailing edge and `num_pts - 1`. */
  function ClosureSlotsAsWritten(s: Scan): (slots: (int, int))
    ensures slots.1 == s.numPts - 1
  {
    (TeUpperSlot(s.lednicer), s.numPts - 1)
  }

  /** As written, a header followed only by blank lines finishes the loop
      without error and with no point stored, so the closure step reads the
      slot before the buffer. */
  lemma {:induction false} BlankBodyReadsBeforeBuffer(s: Scan, n: nat)
    requires s.numPts == 0
    ensures Run(s, Blanks(n)).err == NoError
    ensures Run(s, Blanks(n)).state.numPts == 0
    ensures ClosureSlotsAsWritten(Run(s, Blanks(n)).state).1 == -1
    decreases n
  {
    if n > 0 {
      assert Blanks(n)[1..] == Blanks(n - 1);
      BlankBodyReadsBeforeBuffer(s.(lastEmpty := true), n - 1);
    }
  }
}
