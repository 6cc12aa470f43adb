/** Day 4: the letter grid is searched for X-MAS shapes, two diagonal
    words MAS crossing at their A. */
module Day4 {
  import opened Text

  /** The diagonal directions, in the order the enum iterates them. */
  datatype Direction = NorthEast | SouthEast | SouthWest | NorthWest

  const AllDirections: seq<Direction> := [NorthEast, SouthEast, SouthWest, NorthWest]

  /** The position of an A, as `usize` coordinates. */
  datatype APosition = APosition(x: nat, y: nat)

  type Grid = seq<seq<char>>

  // ---------------------------------------------------------------------
  // reading
  // ---------------------------------------------------------------------

  /** `read_line`: the characters of the line, in order. */
  function ReadLine(line: string): (r: seq<char>)
    ensures |r| == |line| && forall k :: 0 <= k < |line| ==> r[k] == line[k]
  {
    line
  }

  /** `read_all_lines`: one row per input line. */
  method ReadAllLines(input: string) returns (linesVec: Grid)
    ensures |linesVec| == |Lines(input)|
    ensures forall i :: 0 <= i < |linesVec| ==> linesVec[i] == ReadLine(Lines(input)[i])
  {
    var lines := Lines(input);
    linesVec := [];
    for i := 0 to |lines|
      invariant |linesVec| == i
      invariant forall k :: 0 <= k < i ==> linesVec[k] == ReadLine(lines[k])
    {
      linesVec := linesVec + [ReadLine(lines[i])];
    }
  }

  /** Rows written out one per line are read back as the same rows. */
  lemma {:induction false} ReadRowsBack(rows: Grid)
    requires forall i :: 0 <= i < |rows| ==> PlainLine(rows[i])
    ensures |Lines(Join(rows + [""], '\n'))| == |rows|
    ensures forall i :: 0 <= i < |rows| ==> ReadLine(Lines(Join(rows + [""], '\n'))[i]) == rows[i]
  {
    LinesOfNewlineTerminated(rows);
  }

  // ---------------------------------------------------------------------
  // diagonal lookups
  // ---------------------------------------------------------------------

  /** The (vertical, horizontal) offset of a step of the given length. */
  function Offset(dir: Direction, step: int): (r: (int, int))
    ensures r.0 == step || r.0 == -step
    ensures r.1 == step || r.1 == -step
  {
    match dir
    case NorthEast => (-step, step)
    case SouthEast => (step, step)
    case SouthWest => (step, -step)
    case NorthWest => (-step, -step)
  }

  function Opposite(dir: Direction): Direction
  {
    match dir
    case NorthEast => SouthWest
    case SouthEast => NorthWest
    case SouthWest => NorthEast
    case NorthWest => SouthEast
  }

  /** Two steps of one go as far as a single step of two, and a step back
      the opposite way returns to the start. */
  lemma OffsetGeometry(dir: Direction, s: int, t: int)
    ensures Offset(dir, s).0 + Offset(dir, t).0 == Offset(dir, s + t).0
    ensures Offset(dir, s).1 + Offset(dir, t).1 == Offset(dir, s + t).1
    ensures Offset(Opposite(dir), s).0 == -Offset(dir, s).0
    ensures Offset(Opposite(dir), s).1 == -Offset(dir, s).1
    ensures Opposite(Opposite(dir)) == dir && Opposite(dir) != dir
  {
  }

  /** Every row is at least as wide as row 0, so a column that row 0 has
      can be read in every row. */
  predicate WideRows(lines: Grid)
  {
    forall r :: 0 <= r < |lines| ==> |lines[r]| >= |lines[0]|
  }

  /** `get_element_in_direction_with_step`: the letter step cells away from
      (pivotX, pivotY) in the direction. The inner option is the source's
      result: None when the row is outside the grid or the column is
      outside the width of row 0. The outer None is the panic of
      `lines[target_y][target_x]` when the target row is narrower than
      row 0 and ends before the target column. */
  function GetElementInDirectionWithStep(dir: Direction, pivotX: nat, pivotY: nat, lines: Grid, step: int): (r: Option<Option<char>>)
    ensures var ty, tx := pivotY + Offset(dir, step).0, pivotX + Offset(dir, step).1;
            && (r == Some(None) <==> !(0 <= ty < |lines|) || !(0 <= tx < |lines[0]|))
            && (r.None? <==> 0 <= ty < |lines| && 0 <= tx < |lines[0]| && tx >= |lines[ty]|)
            && (r.Some? && r.value.Some? ==> 0 <= ty < |lines| && 0 <= tx < |lines[ty]| && r.value.value == lines[ty][tx])
    ensures WideRows(lines) ==> r.Some?
  {
    var (verticalDiff, horizontalDiff) := Offset(dir, step);
    if pivotY + verticalDiff < 0 || pivotY + verticalDiff >= |lines| then Some(None)
    else if pivotX + horizontalDiff < 0 || pivotX + horizontalDiff >= |lines[0]| then Some(None)
    else
      var targetY := pivotY + verticalDiff;
      var targetX := pivotX + horizontalDiff;
      if targetX < |lines[targetY]| then Some(Some(lines[targetY][targetX])) else None
  }

  /** `get_element_in_direction`: the diagonal neighbour. */
  function GetElementInDirection(dir: Direction, pivotX: nat, pivotY: nat, lines: Grid): (r: Option<Option<char>>)
    ensures r.Some? && r.value.Some? ==> var ty, tx := pivotY + Offset(dir, 1).0, pivotX + Offset(dir, 1).1;
                        0 <= ty < |lines| && 0 <= tx < |lines[ty]| && r.value.value == lines[ty][tx]
    ensures pivotY == 0 && pivotX == 0 ==> r.Some? && r.value.Some? ==> dir == SouthEast
    ensures WideRows(lines) ==> r.Some?
  {
    GetElementInDirectionWithStep(dir, pivotX, pivotY, lines, 1)
  }

  /** `i as usize` for an `i32`: a negative value wraps around. */
  function AsUsize(v: int): nat
    requires v >= -0x1_0000_0000_0000_0000
  {
    if v < 0 then v + 0x1_0000_0000_0000_0000 else v
  }

  /** `get_position_of_a`: the diagonal neighbour's position. */
  function GetPositionOfA(dir: Direction, pivotX: nat, pivotY: nat): (r: APosition)
    ensures pivotY + Offset(dir, 1).0 >= 0 ==> r.y == pivotY + Offset(dir, 1).0
    ensures pivotX + Offset(dir, 1).1 >= 0 ==> r.x == pivotX + Offset(dir, 1).1
  {
    var (verticalDiff, horizontalDiff) := Offset(dir, 1);
    APosition(AsUsize(pivotX + horizontalDiff), AsUsize(pivotY + verticalDiff))
  }

  /** Whenever the step-1 lookup finds a letter, the position of the A is
      the cell it read. */
  lemma PositionOfAIsLookedUp(dir: Direction, pivotX: nat, pivotY: nat, lines: Grid)
    requires GetElementInDirection(dir, pivotX, pivotY, lines).Some?
    requires GetElementInDirection(dir, pivotX, pivotY, lines).value.Some?
    ensures var p := GetPositionOfA(dir, pivotX, pivotY);
            p.y < |lines| && p.x < |lines[p.y]|
            && GetElementInDirection(dir, pivotX, pivotY, lines) == Some(Some(lines[p.y][p.x]))
  {
  }

  // ---------------------------------------------------------------------
  // the search
  // ---------------------------------------------------------------------

  /** M at the pivot, A one step and S two steps away in the direction. */
  predicate MasAt(lines: Grid, i: nat, j: nat, dir: Direction)
    requires i < |lines| && j < |lines[i]|
  {
    && lines[i][j] == 'M'
    && GetElementInDirectionWithStep(dir, j, i, lines, 1) == Some(Some('A'))
    && GetElementInDirectionWithStep(dir, j, i, lines, 2) == Some(Some('S'))
  }

  /** The search panics at cell (i, j) in the direction: the cell holds an
      M and the one-step read panics, or it finds an A and the two-step
      read panics. */
  predicate PanicsAt(lines: Grid, i: nat, j: nat, dir: Direction)
    requires i < |lines| && j < |lines[i]|
  {
    && lines[i][j] == 'M'
    && (|| GetElementInDirectionWithStep(dir, j, i, lines, 1).None?
        || (&& GetElementInDirectionWithStep(dir, j, i, lines, 1) == Some(Some('A'))
            && GetElementInDirectionWithStep(dir, j, i, lines, 2).None?))
  }

  /** Some of the first d directions panics at cell (i, j). */
  predicate DirPanics(lines: Grid, i: nat, j: nat, d: nat)
    requires i < |lines| && j < |lines[i]| && d <= 4
  {
    d > 0 && (DirPanics(lines, i, j, d - 1) || PanicsAt(lines, i, j, AllDirections[d - 1]))
  }

  /** Some direction panics at cell (i, j). */
  predicate CellPanics(lines: Grid, i: nat, j: nat)
    requires i < |lines| && j < |lines[i]|
  {
    DirPanics(lines, i, j, 4)
  }

  /** Some cell of row i before column n panics. */
  predicate RowPanics(lines: Grid, i: nat, n: nat)
    requires i < |lines| && n <= |lines[i]|
  {
    n > 0 && (RowPanics(lines, i, n - 1) || CellPanics(lines, i, n - 1))
  }

  /** Some row before row m panics. */
  predicate GridPanics(lines: Grid, m: nat)
    requires m <= |lines|
  {
    m > 0 && (GridPanics(lines, m - 1) || RowPanics(lines, m - 1, |lines[m - 1]|))
  }

  /** A panic at a cell before column n makes the row panic there, and a
      panicking row before row m makes the grid panic there. */
  lemma {:induction false} PanicSpreads(lines: Grid, i: nat, j: nat, n: nat, m: nat)
    requires i < m <= |lines| && j < n <= |lines[i]|
    ensures CellPanics(lines, i, j) ==> RowPanics(lines, i, n)
    ensures RowPanics(lines, i, |lines[i]|) ==> GridPanics(lines, m)
    decreases n + m
  {
    if n > j + 1 {
      PanicSpreads(lines, i, j, n - 1, m);
    }
    if m > i + 1 {
      PanicSpreads(lines, i, j, n, m - 1);
    }
  }

  /** The directions panic at a cell exactly when one of them does. */
  lemma {:induction false} DirPanicsMeaning(lines: Grid, i: nat, j: nat, d: nat)
    requires i < |lines| && j < |lines[i]| && d <= 4
    ensures DirPanics(lines, i, j, d) <==> exists k :: 0 <= k < d && PanicsAt(lines, i, j, AllDirections[k])
  {
    if d > 0 {
      DirPanicsMeaning(lines, i, j, d - 1);
    }
  }

  /** A row panics before column n exactly when one of its cells there
      does. */
  lemma {:induction false} RowPanicsMeaning(lines: Grid, i: nat, n: nat)
    requires i < |lines| && n <= |lines[i]|
    ensures RowPanics(lines, i, n) <==> exists j :: 0 <= j < n && CellPanics(lines, i, j)
  {
    if n > 0 {
      RowPanicsMeaning(lines, i, n - 1);
    }
  }

  /** A grid panics before row m exactly when one of those rows does. */
  lemma {:induction false} GridPanicsMeaning(lines: Grid, m: nat)
    requires m <= |lines|
    ensures GridPanics(lines, m) <==> exists i :: 0 <= i < m && RowPanics(lines, i, |lines[i]|)
  {
    if m > 0 {
      GridPanicsMeaning(lines, m - 1);
    }
  }

  /** A grid whose rows are all as wide as row 0 never panics. */
  lemma WideRowsNeverPanic(lines: Grid)
    requires WideRows(lines)
    ensures !GridPanics(lines, |lines|)
  {
    forall i, j | 0 <= i < |lines| && 0 <= j < |lines[i]|
      ensures !CellPanics(lines, i, j)
    {
      forall d | 0 <= d < 4
        ensures !PanicsAt(lines, i, j, AllDirections[d])
      {
        var s1 := GetElementInDirectionWithStep(AllDirections[d], j, i, lines, 1);
        var s2 := GetElementInDirectionWithStep(AllDirections[d], j, i, lines, 2);
      }
      DirPanicsMeaning(lines, i, j, 4);
    }
    forall i | 0 <= i < |lines|
      ensures !RowPanics(lines, i, |lines[i]|)
    {
      RowPanicsMeaning(lines, i, |lines[i]|);
    }
    GridPanicsMeaning(lines, |lines|);
  }

  /** The A positions found at cell (i, j) for the first d directions. */
  function DirHits(lines: Grid, i: nat, j: nat, d: nat): seq<APosition>
    requires i < |lines| && j < |lines[i]| && d <= 4
  {
    if d == 0 then []
    else
      DirHits(lines, i, j, d - 1)
      + (if MasAt(lines, i, j, AllDirections[d - 1]) then [GetPositionOfA(AllDirections[d - 1], j, i)] else [])
  }

  /** The A positions found in row i before column n, in search order. */
  function RowHits(lines: Grid, i: nat, n: nat): seq<APosition>
    requires i < |lines| && n <= |lines[i]|
  {
    if n == 0 then [] else RowHits(lines, i, n - 1) + DirHits(lines, i, n - 1, 4)
  }

  /** The A positions found in the rows before row m, in search order. */
  function GridHits(lines: Grid, m: nat): seq<APosition>
    requires m <= |lines|
  {
    if m == 0 then [] else GridHits(lines, m - 1) + RowHits(lines, m - 1, |lines[m - 1]|)
  }

  /** The list of distinct A positions and the count of repeats, as the
      search keeps them. */
  datatype Tally = Tally(seen: seq<APosition>, count: nat)

  function TallyOf(hits: seq<APosition>): Tally
    decreases |hits|
  {
    if |hits| == 0 then Tally([], 0)
    else
      var t := TallyOf(hits[..|hits| - 1]);
      var a := hits[|hits| - 1];
      if a in t.seen then Tally(t.seen, t.count + 1) else Tally(t.seen + [a], t.count)
  }

  /** The list never holds a duplicate and holds every A position found,
      and the count is the number of finds beyond the first of each
      position. */
  lemma {:induction false} TallyMeaning(hits: seq<APosition>)
    ensures NoDuplicates(TallyOf(hits).seen)
    ensures Elements(TallyOf(hits).seen) == Elements(hits)
    ensures TallyOf(hits).count == |hits| - |Elements(hits)|
    decreases |hits|
  {
    if |hits| > 0 {
      var init := hits[..|hits| - 1];
      var a := hits[|hits| - 1];
      TallyMeaning(init);
      assert hits == init + [a];
      assert Elements(hits) == Elements(init) + {a};
      DistinctCard(TallyOf(init).seen);
      DistinctCard(TallyOf(hits).seen);
    }
  }

  /** The work at one cell: for each direction in enum order, a found MAS
      pushes its A or counts a repeat; a read past the end of a narrower
      row panics. */
  method SearchCell(lines: Grid, i: nat, j: nat, seen: seq<APosition>, count: nat, ghost before: seq<APosition>)
    returns (seen': seq<APosition>, count': nat, panicked: bool)
    requires i < |lines| && j < |lines[i]|
    requires TallyOf(before) == Tally(seen, count)
    ensures panicked <==> CellPanics(lines, i, j)
    ensures !panicked ==> TallyOf(before + DirHits(lines, i, j, 4)) == Tally(seen', count')
  {
    seen', count', panicked := seen, count, false;
    ghost var hits := before;
    if lines[i][j] == 'M' {
      assert before + DirHits(lines, i, j, 0) == before;
      for d := 0 to 4
        invariant hits == before + DirHits(lines, i, j, d)
        invariant TallyOf(hits) == Tally(seen', count')
        invariant !DirPanics(lines, i, j, d)
      {
        var direction := AllDirections[d];
        var element := GetElementInDirectionWithStep(direction, j, i, lines, 1);
        if element.None? {
          assert PanicsAt(lines, i, j, AllDirections[d]);
          DirPanicsMeaning(lines, i, j, 4);
          panicked := true;
          return;
        }
        if element == Some(Some('A')) {
          var element2 := GetElementInDirectionWithStep(direction, j, i, lines, 2);
          if element2.None? {
            assert PanicsAt(lines, i, j, AllDirections[d]);
            DirPanicsMeaning(lines, i, j, 4);
            panicked := true;
            return;
          }
          if element2 == Some(Some('S')) {
            var aposition := GetPositionOfA(direction, j, i);
            DirHitsNext(lines, i, j, d, before);
            TallyOfNext(hits, aposition);
            if aposition in seen' {
              count' := count' + 1;
            } else {
              seen' := seen' + [aposition];
            }
            hits := hits + [aposition];
            continue;
          }
        }
        DirHitsNext(lines, i, j, d, before);
      }
    } else {
      forall d | 0 <= d <= 4 ensures DirHits(lines, i, j, d) == [] {
        DirHitsWithoutM(lines, i, j, d);
      }
      assert before + DirHits(lines, i, j, 4) == before;
      DirPanicsMeaning(lines, i, j, 4);
    }
  }

  /** The hits after one more direction: the A position when the
      direction spells MAS, nothing otherwise. */
  lemma {:induction false} DirHitsNext(lines: Grid, i: nat, j: nat, d: nat, before: seq<APosition>)
    requires i < |lines| && j < |lines[i]| && d < 4
    ensures MasAt(lines, i, j, AllDirections[d]) ==>
      before + DirHits(lines, i, j, d + 1) == before + DirHits(lines, i, j, d) + [GetPositionOfA(AllDirections[d], j, i)]
    ensures !MasAt(lines, i, j, AllDirections[d]) ==>
      before + DirHits(lines, i, j, d + 1) == before + DirHits(lines, i, j, d)
  {
  }

  /** Recording one more A position in the tally. */
  lemma {:induction false} TallyOfNext(hits: seq<APosition>, a: APosition)
    ensures a in TallyOf(hits).seen ==> TallyOf(hits + [a]) == Tally(TallyOf(hits).seen, TallyOf(hits).count + 1)
    ensures a !in TallyOf(hits).seen ==> TallyOf(hits + [a]) == Tally(TallyOf(hits).seen + [a], TallyOf(hits).count)
  {
    assert (hits + [a])[..|hits|] == hits;
  }

  lemma {:induction false} DirHitsWithoutM(lines: Grid, i: nat, j: nat, d: nat)
    requires i < |lines| && j < |lines[i]| && d <= 4
    requires lines[i][j] != 'M'
    ensures DirHits(lines, i, j, d) == []
  {
    if d > 0 {
      DirHitsWithoutM(lines, i, j, d - 1);
    }
  }

  /** The work at one row: every column of the row, in order, until a
      cell panics. */
  method SearchRow(lines: Grid, i: nat, seen: seq<APosition>, count: nat, ghost before: seq<APosition>)
    returns (seen': seq<APosition>, count': nat, panicked: bool)
    requires i < |lines|
    requires TallyOf(before) == Tally(seen, count)
    ensures panicked <==> RowPanics(lines, i, |lines[i]|)
    ensures !panicked ==> TallyOf(before + RowHits(lines, i, |lines[i]|)) == Tally(seen', count')
  {
    seen', count', panicked := seen, count, false;
    var currentSubVec := lines[i];
    ghost var hits := before;
    assert before + RowHits(lines, i, 0) == before;
    for j := 0 to |currentSubVec|
      invariant hits == before + RowHits(lines, i, j)
      invariant TallyOf(hits) == Tally(seen', count')
      invariant !panicked && !RowPanics(lines, i, j)
    {
      seen', count', panicked := SearchCell(lines, i, j, seen', count', hits);
      if panicked {
        PanicSpreads(lines, i, j, |lines[i]|, |lines|);
        return;
      }
      RowHitsNext(lines, i, j, before);
      hits := hits + DirHits(lines, i, j, 4);
    }
  }

  lemma {:induction false} GridHitsNext(lines: Grid, i: nat)
    requires i < |lines|
    ensures GridHits(lines, i) + RowHits(lines, i, |lines[i]|) == GridHits(lines, i + 1)
  {
  }

  lemma {:induction false} RowHitsNext(lines: Grid, i: nat, j: nat, done: seq<APosition>)
    requires i < |lines| && j < |lines[i]|
    ensures done + RowHits(lines, i, j) + DirHits(lines, i, j, 4) == done + RowHits(lines, i, j + 1)
  {
    assert RowHits(lines, i, j + 1) == RowHits(lines, i, j) + DirHits(lines, i, j, 4);
  }

  /** `find_patterns_xmas`: the number of A positions found again, that is
      the number of finds beyond the first at each A. None where a read
      lands past the end of a row narrower than row 0 and the source
      panics; a grid whose rows are all as wide as row 0 always has an
      answer. */
  method FindPatternsXmas(input: string) returns (r: Option<nat>)
    ensures r.None? <==> GridPanics(Lines(input), |Lines(input)|)
    ensures r.Some? ==> var hits := GridHits(Lines(input), |Lines(input)|);
            r.value == TallyOf(hits).count == |hits| - |Elements(hits)|
    ensures WideRows(Lines(input)) ==> r.Some?
  {
    var lines := ReadAllLines(input);
    assert lines == Lines(input);
    var allAsInMases, totalPatterns, panicked := SearchGrid(lines);
    if panicked {
      r := None;
    } else {
      TallyMeaning(GridHits(lines, |lines|));
      r := Some(totalPatterns);
    }
    if WideRows(lines) {
      WideRowsNeverPanic(lines);
    }
  }

  /** The rows of the grid, in order, until a row panics. */
  method SearchGrid(lines: Grid) returns (allAsInMases: seq<APosition>, totalPatterns: nat, panicked: bool)
    ensures panicked <==> GridPanics(lines, |lines|)
    ensures !panicked ==> TallyOf(GridHits(lines, |lines|)) == Tally(allAsInMases, totalPatterns)
  {
    totalPatterns := 0;
    allAsInMases := [];
    panicked := false;
    ghost var hits: seq<APosition> := [];
    for i := 0 to |lines|
      invariant hits == GridHits(lines, i)
      invariant TallyOf(hits) == Tally(allAsInMases, totalPatterns)
      invariant !panicked && !GridPanics(lines, i)
    {
      allAsInMases, totalPatterns, panicked := SearchRow(lines, i, allAsInMases, totalPatterns, hits);
      if panicked {
        PanicSpreads(lines, i, 0, |lines[i]|, |lines|);
        return;
      }
      GridHitsNext(lines, i);
      hits := hits + RowHits(lines, i, |lines[i]|);
    }
  }

  /** A grid holding a single X-MAS, with a middle row narrower than
      row 0. */
  const CrossGrid: Grid := ["M.S", ".A", "M.S"]

  lemma CrossGridShape()
    ensures |CrossGrid| == 3 && |CrossGrid[0]| == 3 && |CrossGrid[1]| == 2 && |CrossGrid[2]| == 3
    ensures !WideRows(CrossGrid)
  {
  }

  lemma {:induction false} CrossGridMs(i: nat, j: nat)
    requires i < 3 && j < |CrossGrid[i]|
    ensures CrossGrid[i][j] == 'M' <==> j == 0 && i != 1
  {
  }

  lemma CrossGridTopLeft()
    ensures DirHits(CrossGrid, 0, 0, 4) == [APosition(1, 1)]
    ensures !CellPanics(CrossGrid, 0, 0)
  {
    assert !MasAt(CrossGrid, 0, 0, NorthEast) && !PanicsAt(CrossGrid, 0, 0, NorthEast);
    assert MasAt(CrossGrid, 0, 0, SouthEast) && !PanicsAt(CrossGrid, 0, 0, SouthEast);
    assert !MasAt(CrossGrid, 0, 0, SouthWest) && !PanicsAt(CrossGrid, 0, 0, SouthWest);
    assert !MasAt(CrossGrid, 0, 0, NorthWest) && !PanicsAt(CrossGrid, 0, 0, NorthWest);
  }

  lemma CrossGridBottomLeft()
    ensures DirHits(CrossGrid, 2, 0, 4) == [APosition(1, 1)]
    ensures !CellPanics(CrossGrid, 2, 0)
  {
    assert MasAt(CrossGrid, 2, 0, NorthEast) && !PanicsAt(CrossGrid, 2, 0, NorthEast);
    assert !MasAt(CrossGrid, 2, 0, SouthEast) && !PanicsAt(CrossGrid, 2, 0, SouthEast);
    assert !MasAt(CrossGrid, 2, 0, SouthWest) && !PanicsAt(CrossGrid, 2, 0, SouthWest);
    assert !MasAt(CrossGrid, 2, 0, NorthWest) && !PanicsAt(CrossGrid, 2, 0, NorthWest);
  }

  /** A cell without an M never panics. */
  lemma {:induction false} CellWithoutMNeverPanics(lines: Grid, i: nat, j: nat)
    requires i < |lines| && j < |lines[i]| && lines[i][j] != 'M'
    ensures !CellPanics(lines, i, j)
  {
    DirPanicsMeaning(lines, i, j, 4);
  }

  lemma {:induction false} CrossGridRow(i: nat)
    requires i < 3
    ensures RowHits(CrossGrid, i, |CrossGrid[i]|) == if i == 1 then [] else [APosition(1, 1)]
  {
    for j := 0 to |CrossGrid[i]|
      invariant RowHits(CrossGrid, i, j) == if i == 1 || j == 0 then [] else [APosition(1, 1)]
    {
      CrossGridMs(i, j);
      if j == 0 && i == 0 {
        CrossGridTopLeft();
      } else if j == 0 && i == 2 {
        CrossGridBottomLeft();
      } else {
        DirHitsWithoutM(CrossGrid, i, j, 4);
      }
    }
  }

  lemma {:induction false} CrossGridRowNeverPanics(i: nat)
    requires i < 3
    ensures !RowPanics(CrossGrid, i, |CrossGrid[i]|)
  {
    for j := 0 to |CrossGrid[i]|
      invariant !RowPanics(CrossGrid, i, j)
    {
      CrossGridMs(i, j);
      if j == 0 && i == 0 {
        CrossGridTopLeft();
      } else if j == 0 && i == 2 {
        CrossGridBottomLeft();
      } else {
        CellWithoutMNeverPanics(CrossGrid, i, j);
      }
    }
  }

  lemma CrossGridFirstRows()
    ensures GridHits(CrossGrid, 2) == [APosition(1, 1)]
  {
    CrossGridRow(0);
    CrossGridRow(1);
    assert GridHits(CrossGrid, 1) == RowHits(CrossGrid, 0, 3);
  }

  /** No read of the search lands past the end of the narrow middle row. */
  lemma CrossGridNeverPanics()
    ensures !GridPanics(CrossGrid, 3)
  {
    CrossGridRowNeverPanics(0);
    CrossGridRowNeverPanics(1);
    CrossGridRowNeverPanics(2);
    assert !GridPanics(CrossGrid, 1);
    assert !GridPanics(CrossGrid, 2);
  }

  /** The finds of a three-row grid whose first two rows and last row each
      find the same A once. */
  lemma {:induction false} LastRowHits(lines: Grid, a: APosition)
    requires |lines| == 3
    requires GridHits(lines, 2) == [a]
    requires RowHits(lines, 2, |lines[2]|) == [a]
    ensures GridHits(lines, 3) == [a, a]
  {
  }

  /** A single X-MAS: its A is found from both Ms. */
  lemma CrossGridHits()
    ensures GridHits(CrossGrid, 3) == [APosition(1, 1), APosition(1, 1)]
  {
    CrossGridFirstRows();
    CrossGridRow(2);
    LastRowHits(CrossGrid, APosition(1, 1));
  }

  /** An A found twice is counted once. */
  lemma TallyOfTwice(a: APosition)
    ensures TallyOf([a, a]) == Tally([a], 1)
  {
    assert [a, a][..1] == [a];
    assert [a][..0] == [];
    assert TallyOf([a]) == Tally([a], 0);
  }

  /** The grid with a single X-MAS has an answer, and it counts one. */
  lemma CrossGridCount()
    ensures !GridPanics(CrossGrid, 3)
    ensures TallyOf(GridHits(CrossGrid, 3)).count == 1
  {
    CrossGridNeverPanics();
    CrossGridHits();
    TallyOfTwice(APosition(1, 1));
  }

  /** A grid whose second row ends before the column the M's south-east
      neighbour would be read from: the source panics. */
  const NarrowGrid: Grid := ["M.", "."]

  lemma NarrowGridPanics()
    ensures GridPanics(NarrowGrid, 2)
  {
    assert PanicsAt(NarrowGrid, 0, 0, AllDirections[1]);
    assert CellPanics(NarrowGrid, 0, 0);
    assert RowPanics(NarrowGrid, 0, 2);
  }
}
