/** Scoring a masked symbol by the four rules of section 7.8.3 of ISO/IEC 18004. */
module Penalties {
  import opened Canvases
  import opened Geometry
  import opened Pictures

  const PENALTY_RUN := 3
  const PENALTY_BLOCK := 3
  const PENALTY_FINDER_LIKE := 40
  const PENALTY_IMBALANCE := 10

  /** The lengths of the last seven runs, latest first. */
  type History = h: seq<nat> | |h| == 7 witness [0, 0, 0, 0, 0, 0, 0]

  /** A finished run; the symbol's edge counts as an unbounded light border. */
  function AddRunHistory(history: History, runLength: nat, size: nat): History {
    [if history[0] == 0 then runLength + size else runLength] + history[..6]
  }

  /** 1:1:3:1:1 sequences with the required light margin that end here. */
  function CountFinderLookalikes(history: History): nat {
    var unit := history[1];
    var core :=
      unit > 0 && history[2] == unit && history[3] == unit * 3 && history[4] == unit && history[5] == unit;
    (if core && history[0] >= unit * 4 && history[6] >= unit then 1 else 0)
    + (if core && history[6] >= unit * 4 && history[0] >= unit then 1 else 0)
  }

  function Bonus(runLength: nat): nat {
    if runLength == 5 then PENALTY_RUN else if runLength > 5 then 1 else 0
  }

  /** Points for runs still to come when `line` is left to scan in a run of the given colour and length. */
  function RunPoints(color: bool, length: nat, line: seq<bool>): nat
    decreases |line|
  {
    if line == [] then 0
    else if line[0] == color then Bonus(length + 1) + RunPoints(color, length + 1, line[1..])
    else RunPoints(line[0], 1, line[1..])
  }

  /** Points for finder-lookalikes still to come. */
  function FinderPoints(color: bool, length: nat, history: History, line: seq<bool>, size: nat): nat
    decreases |line|
  {
    if line == [] then
      var (closed, rest) := if color then (AddRunHistory(history, length, size), 0) else (history, length);
      CountFinderLookalikes(AddRunHistory(closed, rest + size, size)) * PENALTY_FINDER_LIKE
    else if line[0] == color then FinderPoints(color, length + 1, history, line[1..], size)
    else
      var next := AddRunHistory(history, length, size);
      (if color then 0 else CountFinderLookalikes(next) * PENALTY_FINDER_LIKE)
      + FinderPoints(line[0], 1, next, line[1..], size)
  }

  const NO_RUNS: History := [0, 0, 0, 0, 0, 0, 0]

  function LineScore(line: seq<bool>): nat {
    RunPoints(false, 0, line) + FinderPoints(false, 0, NO_RUNS, line, |line|)
  }

  // ----- Runs

  /** How many leading modules have a colour. */
  function Leading(color: bool, line: seq<bool>): (count: nat)
    ensures count <= |line|
    ensures forall k :: 0 <= k < count ==> line[k] == color
    ensures count < |line| ==> line[count] != color
  {
    if line == [] || line[0] != color then 0 else 1 + Leading(color, line[1..])
  }

  /** The lengths of the maximal runs of one colour, in order. */
  function MaximalRuns(line: seq<bool>): seq<nat> {
    if line == [] then []
    else
      var first := Leading(line[0], line);
      [first] + MaximalRuns(line[first..])
  }

  /** Section 7.8.3: a run of five or more costs three points, and one more for each module past five. */
  function RunPenalty(runs: seq<nat>): nat {
    if runs == [] then 0 else (if runs[0] >= 5 then runs[0] - 2 else 0) + RunPenalty(runs[1..])
  }

  function Earned(length: nat): nat { if length >= 5 then length - 2 else 0 }

  lemma {:induction false} RunPointsSplit(color: bool, length: nat, line: seq<bool>)
    ensures var r := Leading(color, line);
            Earned(length) + RunPoints(color, length, line) == Earned(length + r) + RunPenalty(MaximalRuns(line[r..]))
    decreases |line|
  {
    hide Bonus, MaximalRuns, RunPenalty, Earned;
    BonusEarned(length);
    NoRuns();
    if line == [] {
      assert line[0..] == line;
    } else if line[0] == color {
      RunPointsSplit(color, length + 1, line[1..]);
      assert line[1..][Leading(color, line[1..])..] == line[Leading(color, line)..];
    } else {
      var first := Leading(line[0], line);
      RunPointsSplit(line[0], 1, line[1..]);
      assert line[1..][Leading(line[0], line[1..])..] == line[first..];
      assert line[0..] == line;
      FirstRun(line);
    }
  }

  lemma NoRuns()
    ensures RunPenalty(MaximalRuns([])) == 0
    ensures Earned(1) == 0
  {}

  lemma BonusEarned(length: nat)
    ensures Earned(length) + Bonus(length + 1) == Earned(length + 1)
  {}

  lemma FirstRun(line: seq<bool>)
    requires line != []
    ensures var first := Leading(line[0], line);
            RunPenalty(MaximalRuns(line)) == Earned(first) + RunPenalty(MaximalRuns(line[first..]))
  {
    var first := Leading(line[0], line);
    assert MaximalRuns(line) == [first] + MaximalRuns(line[first..]);
    assert MaximalRuns(line)[1..] == MaximalRuns(line[first..]);
  }

  /** The points a line earns while it is scanned are those of its maximal runs. */
  lemma RunPointsAreRunPenalty(line: seq<bool>)
    ensures RunPoints(false, 0, line) == RunPenalty(MaximalRuns(line))
  {
    RunPointsSplit(false, 0, line);
    var r := Leading(false, line);
    if r > 0 {
      assert MaximalRuns(line) == [r] + MaximalRuns(line[r..]);
    } else {
      assert line[0..] == line;
    }
  }

  // ----- The whole symbol

  function LineOf(dark: set<Cell>, size: nat, line: nat, horizontal: bool): (modules: seq<bool>)
    ensures |modules| == size
  {
    seq(size, index => (if horizontal then Cell(index, line) else Cell(line, index)) in dark)
  }

  function LinesScore(dark: set<Cell>, size: nat, lines: nat): nat {
    if lines == 0 then 0
    else LinesScore(dark, size, lines - 1) + LineScore(LineOf(dark, size, lines - 1, true)) + LineScore(LineOf(dark, size, lines - 1, false))
  }

  /** Upper left corners of 2 x 2 squares of one colour. */
  function SolidBlocks(dark: set<Cell>, size: nat): set<Cell>
    requires size > 0
  {
    set c | c in Grid(size - 1) && Solid(dark, c)
  }

  predicate Solid(dark: set<Cell>, c: Cell) {
    && (c in dark) == (Cell(c.x + 1, c.y) in dark)
    && (c in dark) == (Cell(c.x, c.y + 1) in dark)
    && (c in dark) == (Cell(c.x + 1, c.y + 1) in dark)
  }

  /** One step per 5% the dark share strays from half. */
  function Imbalance(darkCount: nat, total: nat): int
    requires total > 0
  {
    (Abs(darkCount * 20 - total * 10) + total - 1) / total - 1
  }

  function Penalty(dark: set<Cell>, size: nat): int
    requires size > 0
  {
    LinesScore(dark, size, size)
    + |SolidBlocks(dark, size)| * PENALTY_BLOCK
    + (assert size * size > 0; Imbalance(|dark * Grid(size)|, size * size)) * PENALTY_IMBALANCE
  }

  // ----- The loops

  method PenaltyScore(canvas: Canvas) returns (score: int)
    requires canvas.Valid()
    ensures score == Penalty(canvas.View().dark, canvas.size)
  {
    hide LineScore, Grid, SolidBlocks;
    ghost var dark := canvas.View().dark;
    var size := canvas.size;
    var lines: nat := 0;
    for line := 0 to size
      invariant lines == LinesScore(dark, size, line)
    {
      var row := ScoreLine(canvas, line, true);
      var column := ScoreLine(canvas, line, false);
      lines := lines + row + column;
    }
    var blocks := CountBlocks(canvas);
    score := lines + blocks * PENALTY_BLOCK;
    var count := CountDark(canvas);
    var total := size * size;
    DarkInGrid(canvas);
    assert dark * Grid(size) == dark;
    var middle: int := total * 10;
    var stray: int := count * 20 - middle;
    var steps: int := (Abs(stray) + total - 1) / total - 1;
    score := score + steps * PENALTY_IMBALANCE;
  }

  method ScoreLine(canvas: Canvas, line: nat, horizontal: bool) returns (score: nat)
    requires canvas.Valid() && line < canvas.size
    ensures score == LineScore(LineOf(canvas.View().dark, canvas.size, line, horizontal))
  {
    hide AddRunHistory, CountFinderLookalikes, Bonus, Grid;
    var size := canvas.size;
    ghost var modules := LineOf(canvas.View().dark, size, line, horizontal);
    score := 0;
    var runColor, runLength := false, 0;
    var history: History := [0, 0, 0, 0, 0, 0, 0];
    assert modules[0..] == modules;
    for index := 0 to size
      invariant score + RunPoints(runColor, runLength, modules[index..])
                + FinderPoints(runColor, runLength, history, modules[index..], size) == LineScore(modules)
    {
      var at := if horizontal then canvas.modules[line, index] else canvas.modules[index, line];
      assert modules[index..][0] == at == modules[index];
      assert modules[index..][1..] == modules[index + 1..];
      if at == runColor {
        runLength := runLength + 1;
        score := score + Bonus(runLength);
      } else {
        history := AddRunHistory(history, runLength, size);
        if !runColor {
          score := score + CountFinderLookalikes(history) * PENALTY_FINDER_LIKE;
        }
        runColor := at;
        runLength := 1;
      }
    }
    if runColor {
      history := AddRunHistory(history, runLength, size);
      runLength := 0;
    }
    history := AddRunHistory(history, runLength + size, size);
    score := score + CountFinderLookalikes(history) * PENALTY_FINDER_LIKE;
  }

  lemma DarkAt(canvas: Canvas, x: int, y: int)
    requires canvas.Valid() && Cell(x, y) in Grid(canvas.size)
    ensures Cell(x, y) in canvas.View().dark <==> canvas.modules[y, x]
  {}

  lemma DarkInGrid(canvas: Canvas)
    requires canvas.Valid()
    ensures canvas.View().dark <= Grid(canvas.size)
  {}

  method CountBlocks(canvas: Canvas) returns (count: nat)
    requires canvas.Valid()
    ensures count == |SolidBlocks(canvas.View().dark, canvas.size)|
  {
    hide Grid, Canvas.View, Swept;
    var size := canvas.size;
    ghost var blocks := SolidBlocks(canvas.View().dark, size);
    count := 0;
    SweptEnds(blocks, 0, 0, size - 1, size - 1);
    for y := 0 to size - 1
      invariant count == |Swept(blocks, y, 0)|
    {
      for x := 0 to size - 1
        invariant count == |Swept(blocks, y, x)|
      {
        SweptNext(blocks, y, x);
        DarkAt(canvas, x, y);
        DarkAt(canvas, x + 1, y);
        DarkAt(canvas, x, y + 1);
        DarkAt(canvas, x + 1, y + 1);
        assert Cell(x, y) in blocks <==> Solid(canvas.View().dark, Cell(x, y));
        var color := canvas.modules[y, x];
        if color == canvas.modules[y, x + 1] && color == canvas.modules[y + 1, x] && color == canvas.modules[y + 1, x + 1] {
          count := count + 1;
        }
      }
      SweptRow(blocks, y, 0, size - 1);
    }
  }

  method CountDark(canvas: Canvas) returns (count: nat)
    requires canvas.Valid()
    ensures count == |canvas.View().dark|
  {
    hide Grid, Canvas.View, Swept;
    var size := canvas.size;
    ghost var dark := canvas.View().dark;
    count := 0;
    DarkInGrid(canvas);
    SweptEnds(dark, 0, 0, size, size);
    for y := 0 to size
      invariant count == |Swept(dark, y, 0)|
    {
      for x := 0 to size
        invariant count == |Swept(dark, y, x)|
      {
        SweptNext(dark, y, x);
        DarkAt(canvas, x, y);
        if canvas.modules[y, x] {
          count := count + 1;
        }
      }
      SweptRow(dark, y, 0, size);
    }
  }
}
