/** Day 6: a guard walks a character grid, stepping forward onto clear
    cells and turning clockwise in front of an obstacle, until it walks off
    the grid. This module holds the grid, the direction and symbol helpers,
    the single steps of the walk and the grid scans; the walks themselves
    are in module Day6Walks. */
module Day6 {
  import opened Text

  datatype Direction = North | East | South | West

  /** A cell position: x is the column, y the row (`i32` in the source). */
  datatype Position = Position(x: int, y: int)

  /** A step taken: the direction walked and the cell reached. */
  datatype Move = Move(dir: Direction, pos: Position)

  /** The grid, row by row. */
  type Map = seq<seq<char>>

  // ---------------------------------------------------------------------
  // reading
  // ---------------------------------------------------------------------

  /** `read_map`: one row of characters per input line. */
  function ReadMap(input: string): (r: Map)
    ensures forall y :: 0 <= y < |r| ==> '\n' !in r[y]
    ensures |r| <= |Split(input, '\n')|
  {
    Lines(input)
  }

  /** Rows written out one per line are read back as the same rows. */
  lemma {:induction false} ReadMapOfRows(rows: Map)
    requires forall i :: 0 <= i < |rows| ==> PlainLine(rows[i])
    ensures ReadMap(Join(rows + [""], '\n')) == rows
  {
    LinesOfNewlineTerminated(rows);
  }

  // ---------------------------------------------------------------------
  // cells, symbols and directions
  // ---------------------------------------------------------------------

  /** `is_clear_way`: a free cell, visited or not; the mark the walk
      leaves behind keeps a cell free. */
  predicate IsClearWay(cell: char)
    ensures cell == 'X' || cell == '.' ==> IsClearWay(cell)
  {
    cell == '.' || cell == 'X'
  }

  /** `is_obstacle`: no obstacle is a free cell. */
  predicate IsObstacle(cell: char)
    ensures IsObstacle(cell) ==> !IsClearWay(cell)
  {
    cell == '#'
  }

  /** `is_guard`: the guard drawn facing one of the four directions; no
      guard is a free cell or an obstacle. */
  predicate IsGuard(cell: char)
    ensures IsGuard(cell) ==> !IsClearWay(cell) && !IsObstacle(cell)
  {
    cell == '^' || cell == 'v' || cell == '<' || cell == '>'
  }

  /** `get_facing_direction_of_guard`; any other character panics. The
      guard is drawn with the symbol of the direction it faces. */
  function FacingDirectionOfGuard(cell: char): (r: Direction)
    requires IsGuard(cell)
    ensures GuardSymbol(r) == cell
  {
    match cell
    case '^' => North
    case '>' => East
    case 'v' => South
    case '<' => West
  }

  /** `get_guard_symbol_by_direction`: always a guard symbol. */
  function GuardSymbol(dir: Direction): (r: char)
    ensures IsGuard(r)
  {
    match dir
    case North => '^'
    case East => '>'
    case South => 'v'
    case West => '<'
  }

  /** The guard drawn with a direction's symbol faces that direction, so
      no two directions share a symbol. */
  lemma GuardSymbolsInverse(dir: Direction, other: Direction)
    ensures FacingDirectionOfGuard(GuardSymbol(dir)) == dir
    ensures other != dir ==> GuardSymbol(other) != GuardSymbol(dir)
  {
  }

  /** `get_direction_to_rotate_to`: a quarter turn clockwise, which a
      quarter turn counterclockwise undoes. */
  function RotateClockwise(dir: Direction): (r: Direction)
    ensures r != dir
    ensures RotateCounterclockwise(r) == dir
  {
    match dir
    case North => East
    case East => South
    case South => West
    case West => North
  }

  /** `get_direction_rotating_from`: a quarter turn counterclockwise, to
      another direction. */
  function RotateCounterclockwise(dir: Direction): (r: Direction)
    ensures r != dir
  {
    match dir
    case North => West
    case East => North
    case South => East
    case West => South
  }

  /** The clockwise turn also undoes the counterclockwise one, and it runs
      through all four directions before it comes back. */
  lemma Rotations(dir: Direction)
    ensures RotateClockwise(RotateCounterclockwise(dir)) == dir
    ensures var d1 := RotateClockwise(dir);
            var d2 := RotateClockwise(d1);
            var d3 := RotateClockwise(d2);
            && dir != d1 && dir != d2 && dir != d3 && d1 != d2 && d1 != d3 && d2 != d3
            && RotateClockwise(d3) == dir
  {
  }

  // ---------------------------------------------------------------------
  // positions
  // ---------------------------------------------------------------------

  /** `get_destination_position`: one cell ahead, a horizontal or vertical
      neighbour; north is up (y - 1). */
  function Destination(source: Position, orientation: Direction): (r: Position)
    ensures (r.x == source.x && (r.y == source.y - 1 || r.y == source.y + 1))
            || (r.y == source.y && (r.x == source.x - 1 || r.x == source.x + 1))
  {
    match orientation
    case North => Position(source.x, source.y - 1)
    case East => Position(source.x + 1, source.y)
    case South => Position(source.x, source.y + 1)
    case West => Position(source.x - 1, source.y)
  }

  /** A step facing the other way comes back, and the steps in the four
      directions reach four different cells. */
  lemma DestinationReversed(p: Position, dir: Direction, other: Direction)
    ensures other != dir ==> Destination(p, other) != Destination(p, dir)
    ensures Destination(Destination(p, dir), RotateClockwise(RotateClockwise(dir))) == p
  {
  }

  /** Every row has as many cells as there are rows. */
  predicate Square(grid: Map)
  {
    forall y :: 0 <= y < |grid| ==> |grid[y]| == |grid|
  }

  /** The position names a cell of the grid. */
  predicate OnMap(grid: Map, p: Position)
  {
    0 <= p.y < |grid| && 0 <= p.x < |grid[p.y]|
  }

  /** `is_position_inside_of_map`: both coordinates are compared with the
      width of the first row, which panics on an empty grid. On a square
      grid this is exactly "names a cell". */
  function IsPositionInsideOfMap(p: Position, grid: Map): (r: bool)
    requires |grid| >= 1
    ensures Square(grid) ==> (r <==> OnMap(grid, p))
  {
    p.x >= 0 && p.y >= 0 && p.x < |grid[0]| && p.y < |grid[0]|
  }

  /** The height is not checked: on a grid one row high and two cells wide,
      the second row counts as inside. */
  lemma InsideCheckUsesWidthForY(grid: Map)
    requires |grid| == 1 && |grid[0]| == 2
    ensures IsPositionInsideOfMap(Position(0, 1), grid) && !OnMap(grid, Position(0, 1))
  {
  }

  // ---------------------------------------------------------------------
  // writing cells
  // ---------------------------------------------------------------------

  /** `grid[p.y][p.x] = c` */
  function SetCell(grid: Map, p: Position, c: char): Map
    requires OnMap(grid, p)
  {
    grid[p.y := grid[p.y][p.x := c]]
  }

  /** Writing a cell keeps the shape of the grid and changes that cell
      only. */
  lemma SetCellWrites(grid: Map, p: Position, c: char)
    requires OnMap(grid, p)
    ensures |SetCell(grid, p, c)| == |grid|
    ensures forall y :: 0 <= y < |grid| ==> |SetCell(grid, p, c)[y]| == |grid[y]|
    ensures forall y, x :: 0 <= y < |grid| && 0 <= x < |grid[y]| ==>
              SetCell(grid, p, c)[y][x] == if y == p.y && x == p.x then c else grid[y][x]
  {
  }

  /** The guard symbol facing `dir` sits at p, and no other cell shows a
      guard. */
  predicate GuardOnlyAt(grid: Map, p: Position, dir: Direction)
  {
    && OnMap(grid, p)
    && grid[p.y][p.x] == GuardSymbol(dir)
    && forall y, x :: 0 <= y < |grid| && 0 <= x < |grid[y]| && (y != p.y || x != p.x) ==> !IsGuard(grid[y][x])
  }

  /** No cell shows a guard. */
  predicate NoGuard(grid: Map)
  {
    forall y, x :: 0 <= y < |grid| && 0 <= x < |grid[y]| ==> !IsGuard(grid[y][x])
  }

  // ---------------------------------------------------------------------
  // one step of the walk
  // ---------------------------------------------------------------------

  /** The guard's state in every walk: the grid as drawn so far, where the
      guard stands and where it faces. */
  datatype Guard = Guard(grid: Map, pos: Position, dir: Direction)

  /** A square grid, and the guard symbol facing the guard's way drawn on
      the cell where it stands. */
  predicate ValidGuard(g: Guard)
  {
    Square(g.grid) && OnMap(g.grid, g.pos) && g.grid[g.pos.y][g.pos.x] == GuardSymbol(g.dir)
  }

  /** The cell ahead of the guard, never the one it stands on. */
  function Ahead(g: Guard): (r: Position)
    ensures r != g.pos
  {
    Destination(g.pos, g.dir)
  }

  /** A step onto a clear cell: the cell left is marked 'X' and the guard
      symbol is drawn on the cell reached. */
  function Advance(g: Guard): (r: Guard)
    requires ValidGuard(g) && OnMap(g.grid, Ahead(g))
    ensures ValidGuard(r) && |r.grid| == |g.grid| && r.pos == Ahead(g) && r.dir == g.dir
  {
    var dest := Ahead(g);
    Guard(SetCell(SetCell(g.grid, g.pos, 'X'), dest, GuardSymbol(g.dir)), dest, g.dir)
  }

  /** A quarter turn clockwise on the spot, redrawing the guard. */
  function TurnRight(g: Guard): (r: Guard)
    requires ValidGuard(g)
    ensures ValidGuard(r) && |r.grid| == |g.grid| && r.pos == g.pos && r.dir == RotateClockwise(g.dir)
  {
    var dir := RotateClockwise(g.dir);
    Guard(SetCell(g.grid, g.pos, GuardSymbol(dir)), g.pos, dir)
  }

  /** The candidate obstruction drawn as '#' at p. */
  function WithObstacle(g: Guard, p: Position): (r: Guard)
    requires ValidGuard(g) && OnMap(g.grid, p) && p != g.pos
    ensures ValidGuard(r) && |r.grid| == |g.grid| && r.pos == g.pos && r.dir == g.dir
  {
    Guard(SetCell(g.grid, p, '#'), g.pos, g.dir)
  }

  /** The grid as left when the guard walks off it: its last cell marked. */
  function Leave(g: Guard): (r: Map)
    requires ValidGuard(g)
    ensures Square(r)
  {
    SetCell(g.grid, g.pos, 'X')
  }

  /** The writes of a step onto the cell ahead, as the walks make them. */
  method StepForward(grid: Map, pos: Position, dir: Direction) returns (grid': Map, pos': Position)
    requires ValidGuard(Guard(grid, pos, dir)) && OnMap(grid, Destination(pos, dir))
    ensures Guard(grid', pos', dir) == Advance(Guard(grid, pos, dir))
  {
    var dest := Destination(pos, dir);
    grid' := grid[pos.y := grid[pos.y][pos.x := 'X']];
    grid' := grid'[dest.y := grid'[dest.y][dest.x := GuardSymbol(dir)]];
    pos' := dest;
  }

  /** The writes of a turn, as the walks make them. */
  method TurnInPlace(grid: Map, pos: Position, dir: Direction) returns (grid': Map, dir': Direction)
    requires ValidGuard(Guard(grid, pos, dir))
    ensures Guard(grid', pos, dir') == TurnRight(Guard(grid, pos, dir))
  {
    dir' := RotateClockwise(dir);
    grid' := grid[pos.y := grid[pos.y][pos.x := GuardSymbol(dir')]];
  }

  /** The writes of a turn in front of the candidate obstruction p. */
  method TurnAtObstruction(grid: Map, pos: Position, dir: Direction, p: Position) returns (grid': Map, dir': Direction)
    requires ValidGuard(Guard(grid, pos, dir)) && OnMap(grid, p) && p != pos
    ensures Guard(grid', pos, dir') == TurnRight(WithObstacle(Guard(grid, pos, dir), p))
  {
    grid' := grid[p.y := grid[p.y][p.x := '#']];
    dir' := RotateClockwise(dir);
    grid' := grid'[pos.y := grid'[pos.y][pos.x := GuardSymbol(dir')]];
  }

  /** Stepping onto a clear cell keeps exactly one guard on the grid, on
      the cell reached and facing the same way, and marks the cell left. */
  lemma AdvanceKeepsOneGuard(g: Guard)
    requires ValidGuard(g) && GuardOnlyAt(g.grid, g.pos, g.dir)
    requires OnMap(g.grid, Ahead(g)) && IsClearWay(g.grid[Ahead(g).y][Ahead(g).x])
    ensures GuardOnlyAt(Advance(g).grid, Ahead(g), g.dir)
    ensures Advance(g).grid[g.pos.y][g.pos.x] == 'X'
  {
  }

  /** Turning keeps exactly one guard on the grid, on the same cell and
      facing the new way. */
  lemma TurnKeepsOneGuard(g: Guard)
    requires ValidGuard(g) && GuardOnlyAt(g.grid, g.pos, g.dir)
    ensures GuardOnlyAt(TurnRight(g).grid, g.pos, RotateClockwise(g.dir))
  {
  }

  /** Drawing the obstruction anywhere but under the guard keeps the one
      guard. */
  lemma ObstacleKeepsOneGuard(g: Guard, p: Position)
    requires ValidGuard(g) && GuardOnlyAt(g.grid, g.pos, g.dir)
    requires OnMap(g.grid, p) && p != g.pos
    ensures GuardOnlyAt(WithObstacle(g, p).grid, g.pos, g.dir)
  {
  }

  /** A candidate obstruction placed where an obstacle already stands changes
      nothing: it acts exactly as that wall. */
  lemma ObstacleOnWallChangesNothing(g: Guard, p: Position)
    requires ValidGuard(g) && OnMap(g.grid, p) && IsObstacle(g.grid[p.y][p.x])
    ensures p != g.pos && WithObstacle(g, p) == g
  {
    assert g.grid[p.y][p.x := '#'] == g.grid[p.y];
  }

  /** Walking off the grid leaves no guard on it. */
  lemma LeaveRemovesGuard(g: Guard)
    requires ValidGuard(g) && GuardOnlyAt(g.grid, g.pos, g.dir)
    ensures NoGuard(Leave(g))
  {
  }

  // ---------------------------------------------------------------------
  // scanning the grid
  // ---------------------------------------------------------------------

  /** a comes before b when the grid is read column by column. */
  predicate ColumnMajorBefore(a: Position, b: Position)
  {
    a.x < b.x || (a.x == b.x && a.y < b.y)
  }

  /** a comes before b when the grid is read row by row. */
  predicate RowMajorBefore(a: Position, b: Position)
  {
    a.y < b.y || (a.y == b.y && a.x < b.x)
  }

  /** The search of `find_guard` from column i, row j on: it reads
      `grid[j][i]`, the rows of column i running over the length of row i.
      None when no guard turns up, or when an index falls outside the grid,
      where the source panics. */
  function FirstGuardFrom(grid: Map, i: nat, j: nat): (r: Option<Position>)
    requires i <= |grid| && (i < |grid| ==> j <= |grid[i]|)
    ensures r.Some? ==> OnMap(grid, r.value) && IsGuard(grid[r.value.y][r.value.x])
    decreases |grid| - i, if i < |grid| then |grid[i]| - j else 0
  {
    if i == |grid| then None
    else if j == |grid[i]| then FirstGuardFrom(grid, i + 1, 0)
    else if j >= |grid| || i >= |grid[j]| then None
    else if IsGuard(grid[j][i]) then Some(Position(i, j))
    else FirstGuardFrom(grid, i, j + 1)
  }

  /** What `find_guard` returns; None where it panics. */
  function FirstGuard(grid: Map): (r: Option<Position>)
    ensures r.Some? ==> OnMap(grid, r.value) && IsGuard(grid[r.value.y][r.value.x])
  {
    FirstGuardFrom(grid, 0, 0)
  }

  /** No guard at or after (i, j) in column-major order. */
  predicate NoGuardFrom(grid: Map, i: int, j: int)
  {
    forall x, y ::
      (0 <= x < |grid| && 0 <= y < |grid| && 0 <= x < |grid[y]| && !ColumnMajorBefore(Position(x, y), Position(i, j)))
      ==> !IsGuard(grid[y][x])
  }

  /** On a square grid the search from (i, j) finds the first guard at or
      after (i, j) in column-major order, and fails only when there is
      none. */
  lemma {:induction false} FirstGuardFromMeaning(grid: Map, i: nat, j: nat)
    requires Square(grid) && i <= |grid| && j <= |grid|
    ensures var r := FirstGuardFrom(grid, i, j);
            && (r.None? <==> NoGuardFrom(grid, i, j))
            && (r.Some? ==> !ColumnMajorBefore(r.value, Position(i, j))
                            && forall x, y ::
                                 (0 <= x < |grid| && 0 <= y < |grid| && !ColumnMajorBefore(Position(x, y), Position(i, j))
                                  && ColumnMajorBefore(Position(x, y), r.value))
                                 ==> !IsGuard(grid[y][x]))
    decreases |grid| - i, |grid| - j
  {
    if i < |grid| {
      if j == |grid| {
        FirstGuardFromMeaning(grid, i + 1, 0);
      } else if !IsGuard(grid[j][i]) {
        FirstGuardFromMeaning(grid, i, j + 1);
      }
    }
  }

  /** On a square grid `find_guard` fails exactly when there is no guard,
      and otherwise finds the first guard column by column. */
  lemma FirstGuardMeaning(grid: Map)
    requires Square(grid)
    ensures FirstGuard(grid).None? <==> NoGuard(grid)
    ensures FirstGuard(grid).Some? ==>
              forall x, y :: 0 <= x < |grid| && 0 <= y < |grid| && ColumnMajorBefore(Position(x, y), FirstGuard(grid).value)
                             ==> !IsGuard(grid[y][x])
  {
    FirstGuardFromMeaning(grid, 0, 0);
  }

  /** A grid with a single guard: `find_guard` finds it. */
  lemma FirstGuardOfOnlyGuard(grid: Map, p: Position, dir: Direction)
    requires Square(grid) && GuardOnlyAt(grid, p, dir)
    ensures FirstGuard(grid) == Some(p)
  {
    FirstGuardMeaning(grid);
  }

  /** On a grid two rows high and three cells wide, the scan of column 0
      reads row 2, which does not exist, before it reaches the guard at
      (1, 0): the source panics although a guard is present. */
  lemma FirstGuardOfWideGrid()
    ensures FirstGuard([".^.", "..."]).None?
    ensures IsGuard([".^.", "..."][0][1])
  {
    var grid := [".^.", "..."];
    assert FirstGuardFrom(grid, 0, 2).None?;
  }

  /** `find_guard`: the loops of the source; None where it panics. */
  method FindGuard(grid: Map) returns (r: Option<Position>)
    ensures r == FirstGuard(grid)
  {
    for i := 0 to |grid|
      invariant FirstGuardFrom(grid, i, 0) == FirstGuard(grid)
    {
      var currentSubVec := grid[i];
      for j := 0 to |currentSubVec|
        invariant FirstGuardFrom(grid, i, j) == FirstGuard(grid)
      {
        if j >= |grid| || i >= |grid[j]| {
          return None;
        }
        if IsGuard(grid[j][i]) {
          return Some(Position(i, j));
        }
      }
    }
    return None;
  }

  /** The cells marked 'X'. */
  function XCells(grid: Map): set<Position>
  {
    set y, x | 0 <= y < |grid| && 0 <= x < |grid[y]| && grid[y][x] == 'X' :: Position(x, y)
  }

  /** The cells marked 'X' before q in column-major order. */
  function XCellsBefore(grid: Map, q: Position): set<Position>
  {
    set y, x | 0 <= y < |grid| && 0 <= x < |grid[y]| && grid[y][x] == 'X'
               && ColumnMajorBefore(Position(x, y), q) :: Position(x, y)
  }

  lemma XCellsStep(grid: Map, i: nat, j: nat)
    requires Square(grid) && i < |grid| && j < |grid|
    ensures Position(i, j) !in XCellsBefore(grid, Position(i, j))
    ensures XCellsBefore(grid, Position(i, j + 1))
            == XCellsBefore(grid, Position(i, j)) + (if grid[j][i] == 'X' then {Position(i, j)} else {})
  {
  }

  lemma XCellsNextColumn(grid: Map, i: nat)
    requires Square(grid) && i < |grid|
    ensures XCellsBefore(grid, Position(i, |grid|)) == XCellsBefore(grid, Position(i + 1, 0))
  {
  }

  lemma XCellsAll(grid: Map)
    requires Square(grid)
    ensures XCellsBefore(grid, Position(|grid|, 0)) == XCells(grid)
  {
  }

  /** What the loops of `get_amount_of_x` count from column i, row j on:
      they read `grid[j][i]` for j over the length of row i, so the count
      is None where a read leaves the grid and the source panics. */
  function XCountFrom(grid: Map, i: nat, j: nat): (r: Option<nat>)
    requires i <= |grid| && (i < |grid| ==> j <= |grid[i]|)
    decreases |grid| - i, if i < |grid| then |grid[i]| - j else 0
  {
    if i == |grid| then Some(0)
    else if j == |grid[i]| then XCountFrom(grid, i + 1, 0)
    else if j >= |grid| || i >= |grid[j]| then None
    else
      match XCountFrom(grid, i, j + 1)
      case None => None
      case Some(n) => Some(n + if grid[j][i] == 'X' then 1 else 0)
  }

  /** On a square grid the scan from (i, j) reads every cell at or after
      (i, j) in column-major order and counts the 'X' cells among them. */
  lemma {:induction false} XCountFromSquare(grid: Map, i: nat, j: nat)
    requires Square(grid) && i <= |grid| && j <= |grid| && (i == |grid| ==> j == 0)
    ensures XCountFrom(grid, i, j).Some?
    ensures |XCellsBefore(grid, Position(i, j))| + XCountFrom(grid, i, j).value == |XCells(grid)|
    decreases |grid| - i, |grid| - j
  {
    if i == |grid| {
      XCellsAll(grid);
    } else if j == |grid| {
      XCellsNextColumn(grid, i);
      XCountFromSquare(grid, i + 1, 0);
    } else {
      XCellsStep(grid, i, j);
      XCountFromSquare(grid, i, j + 1);
    }
  }

  /** On a square grid `get_amount_of_x` never panics and counts exactly
      the cells marked 'X'. */
  lemma XCountOfSquare(grid: Map)
    requires Square(grid)
    ensures XCountFrom(grid, 0, 0) == Some(|XCells(grid)|)
  {
    if |grid| == 0 {
      assert XCellsBefore(grid, Position(0, 0)) == {};
      assert XCells(grid) == {};
    } else {
      XCountFromSquare(grid, 0, 0);
      assert XCellsBefore(grid, Position(0, 0)) == {};
    }
  }

  /** A grid two rows high whose first row is three cells wide: the scan
      reads row 2 of column 0, which does not exist, although the grid is
      otherwise scanned without trouble. */
  lemma XCountOfWideGrid()
    ensures XCountFrom(["X..", "..."], 0, 0).None?
  {
    var grid := ["X..", "..."];
    assert XCountFrom(grid, 0, 2).None?;
  }

  /** `get_amount_of_x`: the loops of the source; None where a read leaves
      the grid and the source panics. */
  method GetAmountOfX(grid: Map) returns (positionsVisited: Option<nat>)
    ensures positionsVisited == XCountFrom(grid, 0, 0)
    ensures Square(grid) ==> positionsVisited == Some(|XCells(grid)|)
  {
    var count := 0;
    for i := 0 to |grid|
      invariant XCountFrom(grid, 0, 0) == AddCount(count, XCountFrom(grid, i, 0))
    {
      var currentSubVec := grid[i];
      for j := 0 to |currentSubVec|
        invariant XCountFrom(grid, 0, 0) == AddCount(count, XCountFrom(grid, i, j))
      {
        if j >= |grid| || i >= |grid[j]| {
          return None;
        }
        if grid[j][i] == 'X' {
          count := count + 1;
        }
      }
    }
    if Square(grid) {
      XCountOfSquare(grid);
    }
    return Some(count);
  }

  /** A count so far added to the count of the rest of a scan. */
  function AddCount(n: nat, rest: Option<nat>): Option<nat>
  {
    match rest
    case None => None
    case Some(m) => Some(n + m)
  }

  /** `get_all_obstacles`: every '#' of the grid, row by row and left to
      right within a row. */
  method GetAllObstacles(grid: Map) returns (obstacles: seq<Position>)
    ensures forall p :: p in obstacles <==> OnMap(grid, p) && IsObstacle(grid[p.y][p.x])
    ensures forall a, b :: 0 <= a < b < |obstacles| ==> RowMajorBefore(obstacles[a], obstacles[b])
  {
    obstacles := [];
    for i := 0 to |grid|
      invariant forall p :: p in obstacles <==> OnMap(grid, p) && IsObstacle(grid[p.y][p.x]) && p.y < i
      invariant forall a, b :: 0 <= a < b < |obstacles| ==> RowMajorBefore(obstacles[a], obstacles[b])
      invariant forall a :: 0 <= a < |obstacles| ==> obstacles[a].y < i
    {
      var currentSubVec := grid[i];
      for j := 0 to |currentSubVec|
        invariant forall p :: p in obstacles <==> OnMap(grid, p) && IsObstacle(grid[p.y][p.x]) && RowMajorBefore(p, Position(j, i))
        invariant forall a, b :: 0 <= a < b < |obstacles| ==> RowMajorBefore(obstacles[a], obstacles[b])
        invariant forall a :: 0 <= a < |obstacles| ==> RowMajorBefore(obstacles[a], Position(j, i))
      {
        if grid[i][j] == '#' {
          obstacles := obstacles + [Position(j, i)];
        }
      }
    }
  }
}
