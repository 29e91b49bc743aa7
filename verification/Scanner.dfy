/** The raster scan of the piezo scanner (spi/spi_master_slave/spi_master/physical_devices/scanner.cpp). */
module Scanner {
  const UINT16 := 0x1_0000

  datatype Point = Point(x: int, y: int)

  /** The configuration fields the scan uses; `flag` selects the second value stored, zero for none. */
  datatype Config = Config(pointsX: nat, pointsY: nat, betweenX: nat, betweenY: nat, flag: nat)

  /** What the scanner does to the outside: a value sent to one of the two DAC channels that position the tip, or a
      conversion of the ADC. */
  datatype Act = X(value: int) | Y(value: int) | Convert

  /** The eight channels of one ADC conversion. */
  type Reading = r: seq<int> | |r| == 8 witness [0, 0, 0, 0, 0, 0, 0, 0]

  /** A reading kept, and where it is reported for. */
  datatype Sample = Sample(at: Point, reading: Reading)

  /** What one scan line sends to the host. */
  datatype Line = Line(z: seq<int>, other: seq<int>)

  // ----- The specification

  /** Where a trace of acts leads. */
  function Led(from: Point, acts: seq<Act>): Point {
    if acts == [] then from
    else
      var before := Led(from, acts[..|acts| - 1]);
      match acts[|acts| - 1]
      case X(value) => Point(value, before.y)
      case Y(value) => Point(before.x, value)
      case Convert => before
  }

  predicate OneStep(before: Point, a: Act) {
    match a
    case X(value) => 0 <= value < UINT16 && (value == before.x + 1 || value == before.x - 1)
    case Y(value) => 0 <= value < UINT16 && (value == before.y + 1 || value == before.y - 1)
    case Convert => true
  }

  /** Every write is one step from the position on its axis, and a 16-bit value. */
  predicate SingleSteps(from: Point, acts: seq<Act>) {
    acts == [] ||
    var front, a := acts[..|acts| - 1], acts[|acts| - 1];
    SingleSteps(from, front) && OneStep(Led(from, front), a)
  }

  /** How many conversions there have been. */
  function Conversions(acts: seq<Act>): nat {
    if acts == [] then 0
    else Conversions(acts[..|acts| - 1]) + if acts[|acts| - 1].Convert? then 1 else 0
  }

  /** Where the tip was at conversion `n`: where the writes before it have led. */
  function TipAt(from: Point, acts: seq<Act>, n: nat): Point
    requires n < Conversions(acts)
  {
    var front := acts[..|acts| - 1];
    if n < Conversions(front) then TipAt(from, front, n) else Led(from, front)
  }

  /** Conversion `n` has been made, at this point. */
  predicate TakenAt(from: Point, acts: seq<Act>, n: nat, p: Point) {
    n < Conversions(acts) && TipAt(from, acts, n) == p
  }

  lemma NextAct(from: Point, acts: seq<Act>, a: Act)
    ensures Conversions(acts + [a]) == Conversions(acts) + if a.Convert? then 1 else 0
    ensures a.Convert? ==> TakenAt(from, acts + [a], Conversions(acts), Led(from, acts))
    ensures var before := Led(from, acts);
            Led(from, acts + [a]) ==
            if a.X? then Point(a.value, before.y) else if a.Y? then Point(before.x, a.value) else before
    ensures SingleSteps(from, acts + [a]) <==> SingleSteps(from, acts) && OneStep(Led(from, acts), a)
  {
    assert (acts + [a])[..|acts|] == acts;
  }

  /** What comes later does not change where a conversion was made. */
  lemma {:induction false} StillTaken(from: Point, acts: seq<Act>, more: seq<Act>, n: nat, p: Point)
    requires TakenAt(from, acts, n, p) && acts <= more
    ensures TakenAt(from, more, n, p)
    decreases |more|
  {
    if acts != more {
      StillTaken(from, acts, more[..|more| - 1], n, p);
    }
  }

  /** The trace has grown by a path of single steps. */
  predicate Walked(from: Point, before: seq<Act>, now: seq<Act>, to: Point) {
    before <= now && SingleSteps(from, now[|before|..]) && Led(from, now[|before|..]) == to
  }

  /** Any later part of a trace of single steps is such a path. */
  lemma {:induction false} LaterPart(home: Point, before: seq<Act>, now: seq<Act>)
    requires SingleSteps(home, now) && before <= now
    ensures Walked(Led(home, before), before, now, Led(home, now))
    decreases |now|
  {
    if before == now {
      assert now[|before|..] == [];
    } else {
      var front, a := now[..|now| - 1], now[|now| - 1];
      LaterPart(home, before, front);
      assert now == front + [a] && now[|before|..] == front[|before|..] + [a];
      NextAct(Led(home, before), front[|before|..], a);
      NextAct(home, front, a);
    }
  }

  function Far(a: int, b: int): nat {
    if a < b then b - a else a - b
  }

  /** How many single steps there are at least from one point to another. */
  function Steps(a: Point, b: Point): nat {
    Far(a.x, b.x) + Far(a.y, b.y)
  }

  /** The acts of a row: to the sample points, two conversions at each, and back. */
  function RowActs(c: Config): nat {
    c.pointsX * (c.betweenX + 2) + c.betweenX * c.pointsX
  }

  /** Where sample `j` of row `i` is taken. */
  function SamplePoint(c: Config, origin: Point, i: nat, j: nat): Point {
    Point(origin.x + (j + 1) * c.betweenX, origin.y + i * c.betweenY)
  }

  /** Sample `j` of row `i` is reported for its point, is what conversion `n` gave, and that conversion was made
      with the tip there. */
  predicate Sampled(c: Config, origin: Point, adc: nat -> Reading, n: nat, i: nat, j: nat, sample: Sample,
                    home: Point, acts: seq<Act>) {
    var p := SamplePoint(c, origin, i, j);
    sample == Sample(p, adc(n)) && TakenAt(home, acts, n, p)
  }

  /** Row `i`: of the two conversions made at every point the second is kept, `first` being the number of the
      row's first conversion. */
  predicate Row(c: Config, origin: Point, adc: nat -> Reading, first: nat, i: nat, row: seq<Sample>,
                home: Point, acts: seq<Act>) {
    && |row| == c.pointsX
    && forall j :: 0 <= j < c.pointsX ==> Sampled(c, origin, adc, first + 2 * j + 1, i, j, row[j], home, acts)
  }

  /** The line sent for a row: its first channel, and the selected one if there is one. */
  predicate Reported(c: Config, row: seq<Sample>, line: Line) {
    && |line.z| == |row| && (forall j :: 0 <= j < |row| ==> line.z[j] == row[j].reading[0])
    && |line.other| == (if c.flag != 0 then |row| else 0)
    && (c.flag != 0 ==> c.flag < 8 && forall j :: 0 <= j < |row| ==> line.other[j] == row[j].reading[c.flag])
  }

  /** Whole rows from the first on, each reported. */
  predicate Rows(c: Config, origin: Point, adc: nat -> Reading, first: nat, rows: seq<seq<Sample>>, lines: seq<Line>,
                 home: Point, acts: seq<Act>) {
    && |lines| == |rows|
    && forall i :: 0 <= i < |rows| ==>
         Row(c, origin, adc, first + 2 * (i * c.pointsX), i, rows[i], home, acts) && Reported(c, rows[i], lines[i])
  }

  /** The grid fits in the 16 bits of a coordinate. */
  predicate Fits(c: Config, origin: Point) {
    && 0 <= origin.x && 0 <= origin.y
    && origin.x + c.pointsX * c.betweenX < UINT16 && origin.y + c.pointsY * c.betweenY < UINT16
  }

  predicate InRange(p: Point) {
    0 <= p.x < UINT16 && 0 <= p.y < UINT16
  }

  /** How many rows a scan takes: up to the first after which it finds a stop request. */
  predicate RowCount(c: Config, stops: nat -> bool, n: nat) {
    n <= c.pointsY && (forall i :: 0 <= i < n - 1 ==> !stops(i)) && (n < c.pointsY ==> n > 0 && stops(n - 1))
  }

  // ----- The scanner

  /** The acts of a whole scan of `n` rows: to its origin, along the rows and from line to line, and back. After a
      row that ends on a stop request there is no next line. */
  function ScanActs(c: Config, stops: nat -> bool, n: nat, from: Point, origin: Point): nat {
    var down := if n > 0 && stops(n - 1) then n - 1 else n;
    Steps(from, origin) + n * RowActs(c) + down * c.betweenY
    + Steps(Point(origin.x, origin.y + down * c.betweenY), from)
  }

  lemma OneMoreRow(i: nat, acts: nat, between: nat)
    ensures (i + 1) * acts == i * acts + acts && (i + 1) * between == i * between + between
  {
  }

  /** A position in memory, so that a reference parameter can be the scanner's own. */
  class Cell {
    var x: int
    var y: int

    constructor (p: Point)
      ensures At() == p
    {
      x, y := p.x, p.y;
    }

    function At(): Point
      reads this
    {
      Point(x, y)
    }
  }

  const HOME := Point(0, 0)    // where the tip is at first

  class Scanner {
    const pos: Cell
    const prevPoint: Cell
    var conf: Config
    var vectorZ: seq<int>
    var otherInfo: seq<int>
    var acts: seq<Act>          // all DAC writes and ADC conversions so far
    var lines: seq<Line>        // lines sent so far

    /** The two positions are members of their own; the tip is where the writes have led it, one step at a time. */
    predicate Valid()
      reads this, pos
    {
      pos != prevPoint && pos.At() == Led(HOME, acts) && SingleSteps(HOME, acts)
    }

    constructor (conf: Config)
      ensures Valid() && fresh(pos) && fresh(prevPoint)
      ensures pos.At() == HOME && this.conf == conf && acts == [] && lines == [] && vectorZ == otherInfo == []
    {
      pos := new Cell(HOME);
      prevPoint := new Cell(HOME);
      this.conf, vectorZ, otherInfo, acts, lines := conf, [], [], [], [];
    }

    /** set_on_cap with a position just changed by one. */
    method Step(w: Act)
      requires Valid() && !w.Convert? && OneStep(pos.At(), w)
      modifies pos, this`acts
      ensures Valid() && acts == old(acts) + [w] && Conversions(acts) == Conversions(old(acts))
      ensures pos.At() == if w.X? then Point(w.value, old(pos.y)) else Point(old(pos.x), w.value)
    {
      NextAct(HOME, acts, w);
      if w.X? { pos.x := w.value; } else { pos.y := w.value; }
      acts := acts + [w];
    }

    /** getValuesFromAdc: the reading is the converter's next. */
    method Convert(adc: nat -> Reading) returns (reading: Reading)
      requires Valid()
      modifies this`acts
      ensures Valid() && acts == old(acts) + [Act.Convert] && reading == adc(Conversions(old(acts)))
      ensures Conversions(acts) == Conversions(old(acts)) + 1
      ensures TakenAt(HOME, acts, Conversions(old(acts)), pos.At())
    {
      NextAct(HOME, acts, Act.Convert);
      reading := adc(Conversions(acts));
      acts := acts + [Act.Convert];
    }

    /** The argument is a reference, read again in every turn, and may be the position itself. */
    method MoveTo(point: Cell)
      requires Valid() && InRange(pos.At()) && InRange(point.At())
      modifies pos, this`acts
      ensures Valid() && pos.At() == old(point.At()) && Walked(old(pos.At()), old(acts), acts, pos.At())
      ensures old(acts) <= acts && Conversions(acts) == Conversions(old(acts))
      ensures |acts| == |old(acts)| + Steps(old(pos.At()), old(point.At()))
      ensures forall k :: |old(acts)| <= k < |acts| ==>
                (acts[k].X? <==> k < |old(acts)| + Far(old(pos.x), old(point.x)))
    {
      hide Led, SingleSteps, Walked, Conversions;
      ghost var from, target, n := pos.At(), point.At(), |acts|;
      while pos.x < point.x
        invariant Valid() && old(acts) <= acts && Conversions(acts) == Conversions(old(acts))
        invariant point.At() == target && InRange(pos.At()) && pos.y == from.y
        invariant |acts| + Far(pos.x, target.x) == n + Far(from.x, target.x)
        invariant forall k :: n <= k < |acts| ==> acts[k].X?
        decreases target.x - pos.x
      { Step(X(pos.x + 1)); }
      while pos.x > point.x
        invariant Valid() && old(acts) <= acts && Conversions(acts) == Conversions(old(acts))
        invariant point.At() == target && InRange(pos.At()) && pos.x >= target.x && pos.y == from.y
        invariant |acts| + Far(pos.x, target.x) == n + Far(from.x, target.x)
        invariant forall k :: n <= k < |acts| ==> acts[k].X?
        decreases pos.x - target.x
      { Step(X(pos.x - 1)); }
      ghost var turn := |acts|;
      while pos.y < point.y
        invariant Valid() && old(acts) <= acts && Conversions(acts) == Conversions(old(acts))
        invariant point.At() == target && InRange(pos.At()) && pos.x == target.x
        invariant |acts| + Far(pos.y, target.y) == turn + Far(from.y, target.y)
        invariant turn <= |acts| && forall k :: n <= k < |acts| ==> (acts[k].X? <==> k < turn)
        decreases target.y - pos.y
      { Step(Y(pos.y + 1)); }
      while pos.y > point.y
        invariant Valid() && old(acts) <= acts && Conversions(acts) == Conversions(old(acts))
        invariant point.At() == target && InRange(pos.At()) && pos.x == target.x && pos.y >= target.y
        invariant |acts| + Far(pos.y, target.y) == turn + Far(from.y, target.y)
        invariant turn <= |acts| && forall k :: n <= k < |acts| ==> (acts[k].X? <==> k < turn)
        decreases pos.y - target.y
      { Step(Y(pos.y - 1)); }
      LaterPart(HOME, old(acts), acts);
    }

    /** The samples of one row, `betweenX` steps before each. */
    method ScanRow(ghost origin: Point, i: nat, adc: nat -> Reading) returns (ghost row: seq<Sample>)
      requires Valid() && Fits(conf, origin) && i < conf.pointsY && conf.flag < 8 && vectorZ == otherInfo == []
      requires pos.At() == Point(origin.x, origin.y + i * conf.betweenY)
      modifies pos, this`acts, this`vectorZ, this`otherInfo
      ensures Valid() && old(acts) <= acts && Conversions(acts) == Conversions(old(acts)) + 2 * conf.pointsX
      ensures Row(conf, origin, adc, Conversions(old(acts)), i, row, HOME, acts)
      ensures Reported(conf, row, Line(vectorZ, otherInfo))
      ensures pos.At() == Point(origin.x + conf.pointsX * conf.betweenX, old(pos.y))
      ensures |acts| == |old(acts)| + conf.pointsX * (conf.betweenX + 2)
    {
      hide Led, SingleSteps, Conversions, TakenAt, Reported, SamplePoint, Sampled;
      row := [];
      ghost var first := Conversions(acts);
      NothingReported(conf);
      for j := 0 to conf.pointsX
        invariant Valid() && old(acts) <= acts && Conversions(acts) == first + 2 * j
        invariant |row| == j && pos.At() == Point(origin.x + j * conf.betweenX, old(pos.y))
        invariant |acts| == |old(acts)| + j * (conf.betweenX + 2)
        invariant SomeSampled(conf, origin, adc, first, i, row, HOME, acts)
        invariant Reported(conf, row, Line(vectorZ, otherInfo))
      {
        ghost var before := acts;
        Within(j, conf.pointsX, conf.betweenX);
        for k := 0 to conf.betweenX
          modifies pos, this`acts
          invariant Valid() && before <= acts && Conversions(acts) == first + 2 * j
          invariant pos.At() == Point(origin.x + j * conf.betweenX + k, old(pos.y)) && |acts| == |before| + k
        {
          Step(X(pos.x + 1));
        }
        SampledAt(conf, origin, i, j);
        var reading := Convert(adc);
        reading := Convert(adc);
        ghost var sample := Sample(pos.At(), reading);
        NextSampled(conf, origin, adc, first, i, row, sample, HOME, before, acts);
        ReportedNext(conf, row, Line(vectorZ, otherInfo), sample);
        vectorZ := vectorZ + [reading[0]];
        if conf.flag != 0 { otherInfo := otherInfo + [reading[conf.flag]]; }
        row := row + [sample];
        assert (j + 1) * (conf.betweenX + 2) == j * (conf.betweenX + 2) + conf.betweenX + 2;
      }
    }

    /** Back along a row. */
    method GoBack(n: nat)
      requires Valid() && n <= pos.x < UINT16
      modifies pos, this`acts
      ensures Valid() && old(acts) <= acts && Conversions(acts) == Conversions(old(acts))
      ensures pos.At() == Point(old(pos.x) - n, old(pos.y)) && |acts| == |old(acts)| + n
    {
      hide Led, SingleSteps, Conversions;
      for j := 0 to n
        invariant Valid() && old(acts) <= acts && Conversions(acts) == Conversions(old(acts))
        invariant pos.At() == Point(old(pos.x) - j, old(pos.y)) && |acts| == |old(acts)| + j
      {
        Step(X(pos.x - 1));
      }
    }

    method NextLine(n: nat)
      requires Valid() && 0 <= pos.y && pos.y + n < UINT16
      modifies pos, this`acts
      ensures Valid() && old(acts) <= acts && Conversions(acts) == Conversions(old(acts))
      ensures pos.At() == Point(old(pos.x), old(pos.y) + n) && |acts| == |old(acts)| + n
    {
      hide Led, SingleSteps, Conversions;
      for j := 0 to n
        invariant Valid() && old(acts) <= acts && Conversions(acts) == Conversions(old(acts))
        invariant pos.At() == Point(old(pos.x), old(pos.y) + j) && |acts| == |old(acts)| + j
      {
        Step(Y(pos.y + 1));
      }
    }

    /** One row: scanned, back to its start, and sent. */
    method TakeRow(ghost origin: Point, i: nat, adc: nat -> Reading) returns (ghost row: seq<Sample>)
      requires Valid() && Fits(conf, origin) && i < conf.pointsY && conf.flag < 8 && vectorZ == otherInfo == []
      requires pos.At() == Point(origin.x, origin.y + i * conf.betweenY)
      modifies pos, this`acts, this`vectorZ, this`otherInfo, this`lines
      ensures Valid() && old(acts) <= acts && Conversions(acts) == Conversions(old(acts)) + 2 * conf.pointsX
      ensures Row(conf, origin, adc, Conversions(old(acts)), i, row, HOME, acts)
      ensures |lines| == |old(lines)| + 1 && old(lines) <= lines && Reported(conf, row, lines[|old(lines)|])
      ensures pos.At() == old(pos.At()) && vectorZ == otherInfo == []
      ensures |acts| == |old(acts)| + RowActs(conf)
    {
      hide Led, SingleSteps, Conversions, Row, Reported;
      Within(i, conf.pointsY, conf.betweenY);
      row := ScanRow(origin, i, adc);
      ghost var before := acts;
      GoBack(conf.betweenX * conf.pointsX);
      RowKept(conf, origin, adc, Conversions(old(acts)), i, row, before, acts);
      lines := lines + [Line(vectorZ, otherInfo)];
      vectorZ, otherInfo := [], [];
    }

    /** A scan of the grid that starts where `point` is on entry, be that the position itself; only the
        scanner's private memory of the starting place cannot be passed. A stop request is looked for after
        every row. */
    method StartScan(point: Cell, adc: nat -> Reading, stops: nat -> bool) returns (ghost rows: seq<seq<Sample>>)
      requires Valid() && point != prevPoint
      requires InRange(pos.At()) && Fits(conf, point.At()) && conf.flag < 8 && vectorZ == otherInfo == []
      modifies this, pos, prevPoint
      ensures Valid() && pos.At() == old(pos.At()) && Walked(old(pos.At()), old(acts), acts, pos.At())
      ensures RowCount(conf, stops, |rows|) && old(lines) <= lines
      ensures Rows(conf, old(point.At()), adc, Conversions(old(acts)), rows, lines[|old(lines)|..], HOME, acts)
      ensures |acts| == |old(acts)| + ScanActs(conf, stops, |rows|, old(pos.At()), old(point.At()))
      ensures conf == old(conf) && vectorZ == otherInfo == []
    {
      hide Led, SingleSteps, Conversions, Walked, Row, Rows, Reported, RowActs, Far;
      ghost var from, origin, first := pos.At(), point.At(), Conversions(acts);
      prevPoint.x, prevPoint.y := pos.x, pos.y;
      MoveTo(point);
      rows := [];
      NoRows(conf, origin, adc, first, acts);
      assert lines[|old(lines)|..] == [];
      for i := 0 to conf.pointsY
        invariant Valid() && conf == old(conf) && prevPoint.At() == from && vectorZ == otherInfo == []
        invariant pos.At() == Point(origin.x, origin.y + i * conf.betweenY)
        invariant old(acts) <= acts && Conversions(acts) == first + 2 * (i * conf.pointsX)
        invariant |rows| == i && (forall k :: 0 <= k < i ==> !stops(k))
        invariant |acts| == |old(acts)| + Steps(from, origin) + i * RowActs(conf) + i * conf.betweenY
        invariant old(lines) <= lines && Rows(conf, origin, adc, first, rows, lines[|old(lines)|..], HOME, acts)
      {
        Within(i, conf.pointsY, conf.betweenY);
        Within(i, conf.pointsY, conf.pointsX);
        OneMoreRow(i, RowActs(conf), conf.betweenY);
        ghost var before, sent := acts, lines[|old(lines)|..];
        ghost var row := TakeRow(origin, i, adc);
        RowsNext(conf, origin, adc, first, rows, sent, row, lines[|lines| - 1], before, acts);
        rows, before := rows + [row], acts;
        assert lines[|old(lines)|..] == sent + [lines[|lines| - 1]];
        if stops(i) {
          StopScan();
          RowsKept(conf, origin, adc, first, rows, lines[|old(lines)|..], before, acts);
          LaterPart(HOME, old(acts), acts);
          return;
        }
        NextLine(conf.betweenY);
        RowsKept(conf, origin, adc, first, rows, lines[|old(lines)|..], before, acts);
      }
      ghost var before := acts;
      StopScan();
      RowsKept(conf, origin, adc, first, rows, lines[|old(lines)|..], before, acts);
      LaterPart(HOME, old(acts), acts);
    }

    method StopScan()
      requires Valid() && InRange(pos.At()) && InRange(prevPoint.At())
      modifies pos, this`acts
      ensures Valid() && pos.At() == old(prevPoint.At()) && Walked(old(pos.At()), old(acts), acts, pos.At())
      ensures old(acts) <= acts && Conversions(acts) == Conversions(old(acts))
      ensures |acts| == |old(acts)| + Steps(old(pos.At()), old(prevPoint.At()))
    {
      MoveTo(prevPoint);
    }

    /** A scan from where the tip is: the argument is the very position the scan goes on to move. */
    method StartScanHere(adc: nat -> Reading, stops: nat -> bool) returns (ghost rows: seq<seq<Sample>>)
      requires Valid()
      requires Fits(conf, pos.At()) && InRange(pos.At()) && conf.flag < 8 && vectorZ == otherInfo == []
      modifies this, pos, prevPoint
      ensures Valid() && pos.At() == old(pos.At()) && Walked(old(pos.At()), old(acts), acts, pos.At())
      ensures RowCount(conf, stops, |rows|) && old(lines) <= lines
      ensures Rows(conf, old(pos.At()), adc, Conversions(old(acts)), rows, lines[|old(lines)|..], HOME, acts)
      ensures |acts| == |old(acts)| + ScanActs(conf, stops, |rows|, old(pos.At()), old(pos.At()))
    {
      rows := StartScan(pos, adc, stops);
    }
  }

  // ----- Facts about rows

  lemma NoRows(c: Config, origin: Point, adc: nat -> Reading, first: nat, acts: seq<Act>)
    ensures Rows(c, origin, adc, first, [], [], HOME, acts)
  {
  }

  lemma SampledAt(c: Config, origin: Point, i: nat, j: nat)
    ensures SamplePoint(c, origin, i, j) == Point(origin.x + j * c.betweenX + c.betweenX, origin.y + i * c.betweenY)
  {
    assert (j + 1) * c.betweenX == j * c.betweenX + c.betweenX;
  }

  /** The first samples of a row. */
  predicate SomeSampled(c: Config, origin: Point, adc: nat -> Reading, first: nat, i: nat, row: seq<Sample>,
                        home: Point, acts: seq<Act>) {
    forall j :: 0 <= j < |row| ==> Sampled(c, origin, adc, first + 2 * j + 1, i, j, row[j], home, acts)
  }

  lemma StillSampled(c: Config, origin: Point, adc: nat -> Reading, first: nat, i: nat, row: seq<Sample>,
                     home: Point, acts: seq<Act>, more: seq<Act>)
    requires SomeSampled(c, origin, adc, first, i, row, home, acts) && acts <= more
    ensures SomeSampled(c, origin, adc, first, i, row, home, more)
  {
    hide SamplePoint, TakenAt;
    forall j | 0 <= j < |row| ensures Sampled(c, origin, adc, first + 2 * j + 1, i, j, row[j], home, more) {
      assert Sampled(c, origin, adc, first + 2 * j + 1, i, j, row[j], home, acts);
      StillTaken(home, acts, more, first + 2 * j + 1, SamplePoint(c, origin, i, j));
    }
  }

  lemma NextSampled(c: Config, origin: Point, adc: nat -> Reading, first: nat, i: nat, row: seq<Sample>,
                    sample: Sample, home: Point, acts: seq<Act>, more: seq<Act>)
    requires SomeSampled(c, origin, adc, first, i, row, home, acts) && acts <= more
    requires sample == Sample(SamplePoint(c, origin, i, |row|), adc(first + 2 * |row| + 1))
    requires TakenAt(home, more, first + 2 * |row| + 1, sample.at)
    ensures SomeSampled(c, origin, adc, first, i, row + [sample], home, more)
  {
    StillSampled(c, origin, adc, first, i, row, home, acts, more);
    hide SamplePoint, TakenAt;
  }

  lemma NothingReported(c: Config)
    requires c.flag < 8
    ensures Reported(c, [], Line([], []))
  {
  }

  lemma ReportedNext(c: Config, row: seq<Sample>, line: Line, sample: Sample)
    requires Reported(c, row, line) && c.flag < 8
    ensures Reported(c, row + [sample],
                     Line(line.z + [sample.reading[0]],
                          if c.flag != 0 then line.other + [sample.reading[c.flag]] else line.other))
  {
  }

  lemma RowKept(c: Config, origin: Point, adc: nat -> Reading, first: nat, i: nat, row: seq<Sample>,
                acts: seq<Act>, more: seq<Act>)
    requires Row(c, origin, adc, first, i, row, HOME, acts) && acts <= more
    ensures Row(c, origin, adc, first, i, row, HOME, more)
  {
    hide Sampled;
    StillSampled(c, origin, adc, first, i, row, HOME, acts, more);
  }

  /** Rows taken stay taken. */
  lemma RowsKept(c: Config, origin: Point, adc: nat -> Reading, first: nat, rows: seq<seq<Sample>>, lines: seq<Line>,
                 acts: seq<Act>, more: seq<Act>)
    requires Rows(c, origin, adc, first, rows, lines, HOME, acts) && acts <= more
    ensures Rows(c, origin, adc, first, rows, lines, HOME, more)
  {
    hide Row, Reported;
    forall i | 0 <= i < |rows| ensures Row(c, origin, adc, first + 2 * (i * c.pointsX), i, rows[i], HOME, more) {
      RowKept(c, origin, adc, first + 2 * (i * c.pointsX), i, rows[i], acts, more);
    }
  }

  lemma RowsNext(c: Config, origin: Point, adc: nat -> Reading, first: nat, rows: seq<seq<Sample>>, lines: seq<Line>,
                 row: seq<Sample>, line: Line, acts: seq<Act>, more: seq<Act>)
    requires Rows(c, origin, adc, first, rows, lines, HOME, acts) && acts <= more
    requires Row(c, origin, adc, first + 2 * (|rows| * c.pointsX), |rows|, row, HOME, more) && Reported(c, row, line)
    ensures Rows(c, origin, adc, first, rows + [row], lines + [line], HOME, more)
  {
    RowsKept(c, origin, adc, first, rows, lines, acts, more);
    hide Row, Reported;
  }

  lemma Within(i: nat, n: nat, d: nat)
    requires i < n
    ensures i * d + d <= n * d && (i + 1) * d == i * d + d
  {
    assert (n - i - 1) * d >= 0;
    assert n * d == i * d + d + (n - i - 1) * d;
  }

  /** A stopped scan is a whole-row first part of the full one: the same samples at the same points, sent as
      the same lines. */
  lemma StoppedIsPrefix(c: Config, origin: Point, adc: nat -> Reading, first: nat,
                        rows: seq<seq<Sample>>, lines: seq<Line>, acts: seq<Act>,
                        all: seq<seq<Sample>>, allLines: seq<Line>, allActs: seq<Act>)
    requires Rows(c, origin, adc, first, rows, lines, HOME, acts)
    requires Rows(c, origin, adc, first, all, allLines, HOME, allActs)
    requires |rows| <= |all| == c.pointsY
    ensures rows <= all && lines <= allLines
  {
    hide Reported, TakenAt, SamplePoint;
    forall i | 0 <= i < |rows| ensures rows[i] == all[i] && lines[i] == allLines[i] {
      var n := first + 2 * (i * c.pointsX);
      assert Row(c, origin, adc, n, i, rows[i], HOME, acts) && Row(c, origin, adc, n, i, all[i], HOME, allActs);
      SameRow(c, origin, adc, n, i, rows[i], acts, all[i], allActs);
      SameLine(c, rows[i], lines[i], allLines[i]);
    }
  }

  lemma SameRow(c: Config, origin: Point, adc: nat -> Reading, first: nat, i: nat,
                row: seq<Sample>, acts: seq<Act>, other: seq<Sample>, otherActs: seq<Act>)
    requires Row(c, origin, adc, first, i, row, HOME, acts) && Row(c, origin, adc, first, i, other, HOME, otherActs)
    ensures row == other
  {
    hide TakenAt, SamplePoint;
    forall j | 0 <= j < |row| ensures row[j] == other[j] {
      assert Sampled(c, origin, adc, first + 2 * j + 1, i, j, row[j], HOME, acts);
      assert Sampled(c, origin, adc, first + 2 * j + 1, i, j, other[j], HOME, otherActs);
    }
  }

  lemma SameLine(c: Config, row: seq<Sample>, a: Line, b: Line)
    requires Reported(c, row, a) && Reported(c, row, b)
    ensures a == b
  {
    assert a.z == b.z && a.other == b.other;
  }
}
