/** Which sequences of runs a line pays for, and what a symbol pays in all: the four rules, rule by rule. */
module FourRules {
  import opened Geometry
  import opened Penalties

  /** The runs of a line, light and dark in turn, the first and the last light and possibly empty. */
  function TurnRuns(color: bool, length: nat, line: seq<bool>): (runs: seq<nat>)
    ensures |runs| > 0
    decreases |line|
  {
    if line == [] then if color then [length, 0] else [length]
    else if line[0] == color then TurnRuns(color, length + 1, line[1..])
    else [length] + TurnRuns(line[0], 1, line[1..])
  }

  /** With a light border of the symbol's width before the first and behind the last. */
  function Bordered(runs: seq<nat>, size: nat): (bordered: seq<nat>)
    requires |runs| > 0
    ensures |bordered| == |runs|
  {
    var n := |runs| - 1;
    var first := [runs[0] + size] + runs[1..];
    first[..n] + [first[n] + size]
  }

  /** dark, light, dark, light, dark in the ratio 1:1:3:1:1, ending before run k. */
  predicate FinderLike(runs: seq<nat>, k: nat)
    requires 6 <= k < |runs|
  {
    var unit := runs[k - 1];
    && unit > 0 && runs[k - 2] == unit && runs[k - 3] == 3 * unit && runs[k - 4] == unit && runs[k - 5] == unit
  }

  /** Section 7.8.3: light of four units before or behind, and on the other side at least one. */
  function LookalikesAt(runs: seq<nat>, k: nat): nat
    requires k < |runs|
  {
    if k < 6 || !FinderLike(runs, k) then 0
    else
      var unit, before, behind := runs[k - 1], runs[k - 6], runs[k];
      (if before >= 4 * unit && behind >= unit then 1 else 0) + (if behind >= 4 * unit && before >= unit then 1 else 0)
  }

  /** The even runs are the light ones. */
  function Lookalikes(runs: seq<nat>, from: nat): nat
    requires from <= |runs|
    decreases |runs| - from
  {
    if from == |runs| then 0
    else (if from % 2 == 0 then LookalikesAt(runs, from) else 0) + Lookalikes(runs, from + 1)
  }

  // ----- The history of runs

  function HistoryOf(done: seq<nat>): History {
    seq(7, i requires 0 <= i < 7 => if i < |done| then done[|done| - 1 - i] else 0)
  }

  lemma HistoryGrows(done: seq<nat>, length: nat, size: nat)
    requires size > 0 && forall i :: 0 <= i < |done| ==> done[i] > 0
    ensures AddRunHistory(HistoryOf(done), length, size) == HistoryOf(done + [if done == [] then length + size else length])
  {
    var next := done + [if done == [] then length + size else length];
    assert HistoryOf(done)[0] == 0 <==> done == [];
    forall i | 0 <= i < 7
      ensures AddRunHistory(HistoryOf(done), length, size)[i] == HistoryOf(next)[i]
    {
      if i > 0 {
        assert HistoryOf(done)[..6][i - 1] == HistoryOf(done)[i - 1];
      }
    }
  }

  lemma CountedAt(runs: seq<nat>, done: seq<nat>)
    requires |done| > 0 && |done| <= |runs| && runs[..|done|] == done
    ensures CountFinderLookalikes(HistoryOf(done)) == LookalikesAt(runs, |done| - 1)
  {
    var k := |done| - 1;
    assert forall i :: 0 <= i <= k ==> runs[i] == done[i];
    var h := HistoryOf(done);
    assert h[0] == done[k];
    assert forall i :: 0 <= i < 7 && i <= k ==> h[i] == runs[k - i];
    assert forall i :: 0 <= i < 7 && i > k ==> h[i] == 0;
    if k < 6 {
      assert h[6] == 0;
      NoLookalikeYet(runs, h, k);
    }
  }

  lemma NoLookalikeYet(runs: seq<nat>, h: History, k: nat)
    requires k < 6 && k < |runs| && forall i :: 0 <= i < 7 && i > k ==> h[i] == 0
    ensures CountFinderLookalikes(h) == 0
  {
    assert h[6] == 0;
  }

  /** Runs already closed and those still to come, with the borders. */
  function Whole(done: seq<nat>, rest: seq<nat>, size: nat): (runs: seq<nat>)
    requires |rest| > 0
    ensures |runs| == |done| + |rest|
  {
    if done == [] then Bordered(rest, size)
    else done + rest[..|rest| - 1] + [rest[|rest| - 1] + size]
  }

  function Close(done: seq<nat>, length: nat, size: nat): seq<nat> {
    done + [if done == [] then length + size else length]
  }

  lemma WholeStep(done: seq<nat>, length: nat, rest: seq<nat>, size: nat)
    requires |rest| > 0
    ensures Whole(done, [length] + rest, size) == Whole(Close(done, length, size), rest, size)
    ensures Whole(done, [length] + rest, size)[..|done| + 1] == Close(done, length, size)
  {
    var all := [length] + rest;
    LastOf(length, rest);
    if done == [] {
      BorderedStep(length, rest, size);
    } else {
      RegroupRuns(done, [length], rest[..|rest| - 1], [rest[|rest| - 1] + size]);
    }
    assert Close(done, length, size) + rest[..|rest| - 1] + [rest[|rest| - 1] + size] == Whole(Close(done, length, size), rest, size);
  }

  lemma LastOf(length: nat, rest: seq<nat>)
    requires |rest| > 0
    ensures var all := [length] + rest; all[|all| - 1] == rest[|rest| - 1] && all[..|all| - 1] == [length] + rest[..|rest| - 1]
  {}

  lemma BorderedStep(length: nat, rest: seq<nat>, size: nat)
    requires |rest| > 0
    ensures Bordered([length] + rest, size) == [length + size] + rest[..|rest| - 1] + [rest[|rest| - 1] + size]
  {
    var first := [length + size] + rest;
    assert ([length] + rest)[1..] == rest;
    assert first[..|rest|] == [length + size] + rest[..|rest| - 1];
  }

  lemma RegroupRuns(a: seq<nat>, b: seq<nat>, c: seq<nat>, d: seq<nat>)
    ensures a + (b + c) + d == (a + b) + c + d
    ensures (a + (b + c) + d)[..|a| + |b|] == a + b
  {}

  lemma WholeEnds(done: seq<nat>, length: nat, size: nat)
    ensures Whole(done, [length], size) == Close(done, length + size, size)
  {}

  /** The points still to come are those of the runs still to come. */
  lemma {:induction false} PointsToCome(color: bool, length: nat, line: seq<bool>, done: seq<nat>, size: nat)
    requires size > 0 && (forall i :: 0 <= i < |done| ==> done[i] > 0)
    requires |done| % 2 == (if color then 1 else 0) && (length > 0 || (done == [] && !color))
    ensures FinderPoints(color, length, HistoryOf(done), line, size) ==
            40 * Lookalikes(Whole(done, TurnRuns(color, length, line), size), |done|)
    decreases |line|
  {
    hide CountFinderLookalikes, AddRunHistory, HistoryOf, Whole, LookalikesAt, Close;
    var runs := Whole(done, TurnRuns(color, length, line), size);
    if line == [] {
      if color {
        LastDark(length, done, size);
      } else {
        LastLight(length, done, size);
      }
    } else if line[0] == color {
      PointsToCome(color, length + 1, line[1..], done, size);
    } else {
      var closed := Close(done, length, size);
      Closes(done, length, size);
      WholeStep(done, length, TurnRuns(line[0], 1, line[1..]), size);
      PointsToCome(line[0], 1, line[1..], closed, size);
      CountedAt(runs, closed);
    }
  }

  lemma Closes(done: seq<nat>, length: nat, size: nat)
    requires size > 0 && (forall i :: 0 <= i < |done| ==> done[i] > 0) && (length > 0 || done == [])
    ensures var closed := Close(done, length, size);
            && |closed| == |done| + 1 && (forall i :: 0 <= i < |closed| ==> closed[i] > 0)
            && AddRunHistory(HistoryOf(done), length, size) == HistoryOf(closed)
  {
    hide AddRunHistory, HistoryOf;
    HistoryGrows(done, length, size);
  }

  lemma LastLight(length: nat, done: seq<nat>, size: nat)
    requires size > 0 && (forall i :: 0 <= i < |done| ==> done[i] > 0)
    requires |done| % 2 == 0 && (length > 0 || done == [])
    ensures FinderPoints(false, length, HistoryOf(done), [], size) == 40 * Lookalikes(Whole(done, [length], size), |done|)
  {
    hide CountFinderLookalikes, AddRunHistory, HistoryOf, Whole, LookalikesAt, Close;
    var closed := Close(done, length + size, size);
    WholeEnds(done, length, size);
    Closes(done, length + size, size);
    assert closed[..|closed|] == closed;
    CountedAt(closed, closed);
    assert Lookalikes(closed, |closed|) == 0;
  }

  lemma LastDark(length: nat, done: seq<nat>, size: nat)
    requires size > 0 && (forall i :: 0 <= i < |done| ==> done[i] > 0)
    requires |done| % 2 == 1 && length > 0
    ensures FinderPoints(true, length, HistoryOf(done), [], size) == 40 * Lookalikes(Whole(done, [length, 0], size), |done|)
  {
    hide CountFinderLookalikes, AddRunHistory, HistoryOf, Whole, LookalikesAt, Close;
    var closed := Close(done, length, size);
    Closes(done, length, size);
    WholeStep(done, length, [0], size);
    assert [length] + [0] == [length, 0];
    WholeEnds(closed, 0, size);
    var ended := Close(closed, 0 + size, size);
    Closes(closed, 0 + size, size);
    assert ended[..|ended|] == ended;
    CountedAt(ended, ended);
    assert Lookalikes(ended, |ended|) == 0;
    assert Lookalikes(ended, |done|) == Lookalikes(ended, |done| + 1);
  }

  // ----- The runs are those of the line

  function Same(color: bool, count: nat): (modules: seq<bool>)
    ensures |modules| == count
  {
    seq(count, _ => color)
  }

  function Laid(color: bool, runs: seq<nat>): seq<bool>
    decreases |runs|
  {
    if runs == [] then [] else Same(color, runs[0]) + Laid(!color, runs[1..])
  }

  /** Laid one after the other the runs are the line, and none between the first and the last is empty. */
  lemma {:induction false} RunsOfLine(color: bool, length: nat, line: seq<bool>)
    ensures var runs := TurnRuns(color, length, line);
            && Laid(color, runs) == Same(color, length) + line
            && (forall i :: 0 < i < |runs| - 1 ==> runs[i] > 0)
            && runs[0] >= length && (|runs| % 2 == 1 <==> !color)
    decreases |line|
  {
    var runs := TurnRuns(color, length, line);
    if line == [] {
      if color {
        assert runs[1..] == [0] && [0][1..] == [];
        assert Laid(!color, [0]) == [];
      } else {
        assert runs[1..] == [];
      }
    } else if line[0] == color {
      RunsOfLine(color, length + 1, line[1..]);
      assert Same(color, length + 1) + line[1..] == Same(color, length) + line;
    } else {
      RunsOfLine(line[0], 1, line[1..]);
      assert runs[1..] == TurnRuns(line[0], 1, line[1..]);
      assert Same(line[0], 1) + line[1..] == line;
    }
  }

  // ----- All four rules

  function LinePoints(line: seq<bool>): nat {
    RunPenalty(MaximalRuns(line)) + 40 * Lookalikes(Bordered(TurnRuns(false, 0, line), |line|), 0)
  }

  lemma LineScoreIs(line: seq<bool>)
    requires line != []
    ensures LineScore(line) == LinePoints(line)
  {
    hide RunPenalty, MaximalRuns, Lookalikes, Bordered, TurnRuns, HistoryOf;
    RunPointsAreRunPenalty(line);
    assert HistoryOf([]) == NO_RUNS by { NoHistory(); }
    PointsToCome(false, 0, line, [], |line|);
    assert Whole([], TurnRuns(false, 0, line), |line|) == Bordered(TurnRuns(false, 0, line), |line|);
  }

  lemma NoHistory()
    ensures HistoryOf([]) == NO_RUNS
  {}

  function RowOf(dark: set<Cell>, size: nat, y: nat): seq<bool> { seq(size, x => Cell(x, y) in dark) }

  function ColumnOf(dark: set<Cell>, size: nat, x: nat): seq<bool> { seq(size, y => Cell(x, y) in dark) }

  function LinesPoints(dark: set<Cell>, size: nat, lines: nat): nat {
    if lines == 0 then 0
    else LinesPoints(dark, size, lines - 1) + LinePoints(RowOf(dark, size, lines - 1)) + LinePoints(ColumnOf(dark, size, lines - 1))
  }

  lemma {:induction false} LinesScoreIs(dark: set<Cell>, size: nat, lines: nat)
    requires size > 0
    ensures LinesScore(dark, size, lines) == LinesPoints(dark, size, lines)
  {
    hide LineScore, LinePoints;
    if lines > 0 {
      LinesScoreIs(dark, size, lines - 1);
      LineScoreIs(RowOf(dark, size, lines - 1));
      LineScoreIs(ColumnOf(dark, size, lines - 1));
      assert LineOf(dark, size, lines - 1, true) == RowOf(dark, size, lines - 1);
      assert LineOf(dark, size, lines - 1, false) == ColumnOf(dark, size, lines - 1);
    }
  }

  /** Four modules of one colour, by their upper left corner. */
  predicate OneColour(dark: set<Cell>, size: nat, c: Cell) {
    && 0 <= c.x < size - 1 && 0 <= c.y < size - 1
    && var corner := c in dark;
       forall x, y :: c.x <= x <= c.x + 1 && c.y <= y <= c.y + 1 ==> (Cell(x, y) in dark <==> corner)
  }

  /** The score of a symbol, by the four rules: steps of imbalance are whole twentieths off the half, rounded up, less one. */
  lemma PenaltyIs(dark: set<Cell>, size: nat, squares: set<Cell>) returns (steps: int)
    requires size > 0 && forall c :: c in squares <==> OneColour(dark, size, c)
    ensures Penalty(dark, size) == LinesPoints(dark, size, size) + 3 * |squares| + 10 * steps
    ensures var total, count := size * size, |dark * Grid(size)|;
            var off := if 20 * count < 10 * total then 10 * total - 20 * count else 20 * count - 10 * total;
            steps * total < off <= (steps + 1) * total
  {
    hide LinesScore, LinesPoints, Grid;
    LinesScoreIs(dark, size, size);
    forall c: Cell
      ensures c in squares <==> c in SolidBlocks(dark, size)
    {
      SquareIs(dark, size, c);
    }
    assert squares == SolidBlocks(dark, size);
    var total, count := size * size, |dark * Grid(size)|;
    assert total > 0;
    steps := Imbalance(count, total);
    RoundedUp(Abs(count * 20 - total * 10), total);
  }

  lemma SquareIs(dark: set<Cell>, size: nat, c: Cell)
    requires size > 0
    ensures OneColour(dark, size, c) <==> c in SolidBlocks(dark, size)
  {
    assert Cell(c.x, c.y) == c;
    if OneColour(dark, size, c) {
      var x, y := c.x + 1, c.y + 1;
      assert Cell(x, c.y) in dark <==> c in dark;
      assert Cell(c.x, y) in dark <==> c in dark;
      assert Cell(x, y) in dark <==> c in dark;
      assert Solid(dark, c);
    }
  }

  lemma RoundedUp(off: nat, total: nat)
    requires total > 0
    ensures var steps := (off + total - 1) / total - 1; steps * total < off <= (steps + 1) * total
  {
    var q, r := (off + total - 1) / total, (off + total - 1) % total;
    assert off + total - 1 == q * total + r;
    assert (q - 1) * total == q * total - total;
  }
}
