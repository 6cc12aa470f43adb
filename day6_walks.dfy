/** Day 6, the walks: the patrol that counts the visited cells, the two
    loop tests run for a candidate obstruction, the check of a candidate
    against the known obstacles, and the search for every obstruction that
    would trap the guard. Walks the source runs until the guard leaves take
    a `fuel` bound here: the number of turns of the loop allowed, None when
    it runs out. */
module Day6Walks {
  import opened Text
  import opened Day6

  /** The guard as `find_guard` finds it, facing the way its symbol
      shows. */
  function Start(grid: Map): (r: Option<Guard>)
    requires Square(grid)
    ensures r.Some? ==> r.value.grid == grid && ValidGuard(r.value)
    ensures r.None? <==> NoGuard(grid)
  {
    FirstGuardMeaning(grid);
    match FirstGuard(grid)
    case None => None
    case Some(p) => Some(Guard(grid, p, FacingDirectionOfGuard(grid[p.y][p.x])))
  }

  /** A guard standing on the grid is found by `find_guard`. */
  lemma StartOfValid(g: Guard)
    requires ValidGuard(g)
    ensures Start(g.grid).Some?
  {
    assert !NoGuard(g.grid) by {
      assert IsGuard(g.grid[g.pos.y][g.pos.x]);
    }
  }

  /** `find_guard` followed by the reading of the guard's symbol, as
      each walk begins. */
  method LocateGuard(grid: Map) returns (found: bool, pos: Position, dir: Direction)
    requires Square(grid)
    ensures Start(grid) == if found then Some(Guard(grid, pos, dir)) else None
  {
    pos, dir := Position(0, 0), North;
    var guardPosition := FindGuard(grid);
    FirstGuardMeaning(grid);
    found := guardPosition.Some?;
    if found {
      pos := guardPosition.value;
      dir := FacingDirectionOfGuard(grid[pos.y][pos.x]);
    }
  }

  // ---------------------------------------------------------------------
  // one turn of a walk
  // ---------------------------------------------------------------------

  /** The outcome of one turn: `Out` when the guard walks off the grid,
      otherwise the guard after the turn and the move made, if it
      stepped. */
  datatype Turn = Walked(g: Guard, made: Option<Move>) | Out

  /** One turn of the patrol: a clear cell ahead is stepped onto, an
      obstacle ahead turns the guard, anything else ahead leaves everything
      as it is. */
  function PlainStep(g: Guard): (r: Turn)
    requires ValidGuard(g)
    ensures r.Out? <==> !OnMap(g.grid, Ahead(g))
    ensures r.Walked? ==> ValidGuard(r.g) && |r.g.grid| == |g.grid|
    ensures r.Walked? && r.made.Some? ==> r.made.value == Move(g.dir, Ahead(g)) && r.g.pos == Ahead(g)
    ensures r.Walked? && r.made.None? ==> r.g.pos == g.pos
  {
    var dest := Ahead(g);
    if !IsPositionInsideOfMap(dest, g.grid) then Out
    else if IsClearWay(g.grid[dest.y][dest.x]) then Walked(Advance(g), Some(Move(g.dir, dest)))
    else if IsObstacle(g.grid[dest.y][dest.x]) then Walked(TurnRight(g), None)
    else Walked(g, None)
  }

  /** One turn of either loop test: the candidate obstruction is drawn as '#'
      and turned away from when the guard faces it; any other cell ahead is
      handled as in the patrol. */
  function ObstructedStep(g: Guard, obstruction: Position): (r: Turn)
    requires ValidGuard(g) && OnMap(g.grid, obstruction)
    ensures r.Out? <==> Ahead(g) != obstruction && !OnMap(g.grid, Ahead(g))
    ensures r.Walked? ==> ValidGuard(r.g) && |r.g.grid| == |g.grid|
    ensures r.Walked? && r.made.Some? ==> r.made.value == Move(g.dir, Ahead(g)) && r.g.pos == Ahead(g)
    ensures r.Walked? && r.made.None? ==> r.g.pos == g.pos
  {
    var dest := Ahead(g);
    if dest == obstruction then Walked(TurnRight(WithObstacle(g, dest)), None)
    else PlainStep(g)
  }

  /** One turn of the patrol, with the writes the source makes. */
  method TakePlainTurn(grid: Map, pos: Position, dir: Direction)
    returns (out: bool, grid': Map, pos': Position, dir': Direction, made: Option<Move>)
    requires ValidGuard(Guard(grid, pos, dir))
    ensures PlainStep(Guard(grid, pos, dir)) == if out then Out else Walked(Guard(grid', pos', dir'), made)
    ensures out ==> grid' == grid && pos' == pos
  {
    grid', pos', dir', made, out := grid, pos, dir, None, false;
    var destPosition := Destination(pos, dir);
    if !IsPositionInsideOfMap(destPosition, grid) {
      out := true;
      return;
    }
    var destinationCell := grid[destPosition.y][destPosition.x];
    if IsClearWay(destinationCell) {
      made := Some(Move(dir, destPosition));
      grid', pos' := StepForward(grid, pos, dir);
    } else if IsObstacle(destinationCell) {
      grid', dir' := TurnInPlace(grid, pos, dir);
    }
  }

  /** One turn of either loop test, with the writes the source makes. */
  method TakeTurn(grid: Map, pos: Position, dir: Direction, obstructionToTest: Position)
    returns (out: bool, grid': Map, pos': Position, dir': Direction, made: Option<Move>)
    requires ValidGuard(Guard(grid, pos, dir)) && OnMap(grid, obstructionToTest)
    ensures ObstructedStep(Guard(grid, pos, dir), obstructionToTest)
            == if out then Out else Walked(Guard(grid', pos', dir'), made)
  {
    var destPosition := Destination(pos, dir);
    if destPosition == obstructionToTest {
      out, pos', made := false, pos, None;
      grid', dir' := TurnAtObstruction(grid, pos, dir, destPosition);
      return;
    }
    out, grid', pos', dir', made := TakePlainTurn(grid, pos, dir);
  }

  /** A turn of the patrol keeps exactly one guard on the grid. */
  lemma PlainStepKeepsOneGuard(g: Guard)
    requires ValidGuard(g) && GuardOnlyAt(g.grid, g.pos, g.dir)
    ensures PlainStep(g).Walked? ==> GuardOnlyAt(PlainStep(g).g.grid, PlainStep(g).g.pos, PlainStep(g).g.dir)
  {
    var dest := Ahead(g);
    if !IsPositionInsideOfMap(dest, g.grid) {
    } else if IsClearWay(g.grid[dest.y][dest.x]) {
      AdvanceKeepsOneGuard(g);
    } else if IsObstacle(g.grid[dest.y][dest.x]) {
      TurnKeepsOneGuard(g);
    }
  }

  /** An obstruction on a cell that already holds an obstacle changes no
      turn of the walk, and the cell still holds it afterwards. */
  lemma ObstructionOnWallStep(g: Guard, obstruction: Position)
    requires ValidGuard(g) && OnMap(g.grid, obstruction)
    requires IsObstacle(g.grid[obstruction.y][obstruction.x])
    ensures ObstructedStep(g, obstruction) == PlainStep(g)
    ensures PlainStep(g).Walked? ==> IsObstacle(PlainStep(g).g.grid[obstruction.y][obstruction.x])
  {
    if Ahead(g) == obstruction {
      ObstacleOnWallChangesNothing(g, obstruction);
    }
  }

  // ---------------------------------------------------------------------
  // the patrol
  // ---------------------------------------------------------------------

  /** The loop of `analyze_guards_patrol_pattern` for at most `fuel` turns:
      the grid as left when the guard walks off it. */
  function Patrol(g: Guard, fuel: nat): (r: Option<Map>)
    requires ValidGuard(g)
    ensures r.Some? ==> Square(r.value) && |r.value| == |g.grid|
    decreases fuel
  {
    if fuel == 0 then None
    else
      match PlainStep(g)
      case Out => Some(Leave(g))
      case Walked(next, _) => Patrol(next, fuel - 1)
  }

  /** The first turn of the patrol and the rest of it. */
  lemma {:induction false} PatrolTurn(g: Guard, fuel: nat)
    requires ValidGuard(g) && fuel >= 1
    ensures PlainStep(g).Out? ==> Patrol(g, fuel) == Some(Leave(g))
    ensures PlainStep(g).Walked? ==> Patrol(g, fuel) == Patrol(PlainStep(g).g, fuel - 1)
  {
  }

  /** A turn of the patrol in which the guard stays on the grid, with the
      turns left after it named `rest`. */
  lemma {:induction false} PatrolWalkedTurn(g: Guard, fuel: nat, next: Guard, rest: nat)
    requires ValidGuard(g) && fuel >= 1 && rest == fuel - 1
    requires PlainStep(g).Walked? && PlainStep(g).g == next
    ensures ValidGuard(next) && Patrol(g, fuel) == Patrol(next, rest)
  {
    PatrolTurn(g, fuel);
  }

  /** What `analyze_guards_patrol_pattern` returns: the number of cells
      marked 'X' once the guard has left; None where there is no guard to
      find or the fuel runs out. */
  function VisitedCount(grid: Map, fuel: nat): (r: Option<nat>)
    requires Square(grid)
    ensures NoGuard(grid) ==> r.None?
  {
    match Start(grid)
    case None => None
    case Some(g) =>
      match Patrol(g, fuel)
      case None => None
      case Some(left) => Some(|XCells(left)|)
  }

  /** With one guard on the grid, the patrol keeps exactly one guard, and
      the grid it leaves has none. */
  lemma {:induction false} PatrolLeavesNoGuard(g: Guard, fuel: nat)
    requires ValidGuard(g) && GuardOnlyAt(g.grid, g.pos, g.dir)
    ensures Patrol(g, fuel).Some? ==> NoGuard(Patrol(g, fuel).value)
    decreases fuel
  {
    if fuel > 0 {
      var t := PlainStep(g);
      if t.Out? {
        PatrolTurn(g, fuel);
        LeaveRemovesGuard(g);
      } else {
        var rest: nat := fuel - 1;
        PatrolWalkedTurn(g, fuel, t.g, rest);
        PlainStepKeepsOneGuard(g);
        PatrolLeavesNoGuard(t.g, rest);
      }
    }
  }

  /** The action loop of `analyze_guards_patrol_pattern`, for at most
      `fuel` turns: the grid as left when the guard walks off it. */
  method WalkPatrol(grid0: Map, pos: Position, dir: Direction, fuel: nat) returns (left: Option<Map>)
    requires ValidGuard(Guard(grid0, pos, dir))
    ensures left == Patrol(Guard(grid0, pos, dir), fuel)
  {
    var grid, sourcePosition, guardOrientation := grid0, pos, dir;
    var remaining := fuel;
    while remaining > 0
      invariant ValidGuard(Guard(grid, sourcePosition, guardOrientation))
      invariant Patrol(Guard(grid, sourcePosition, guardOrientation), remaining) == Patrol(Guard(grid0, pos, dir), fuel)
    {
      var out: bool;
      out, grid, sourcePosition, guardOrientation, remaining := PatrolStep(grid, sourcePosition, guardOrientation, remaining);
      if out {
        grid := grid[sourcePosition.y := grid[sourcePosition.y][sourcePosition.x := 'X']];
        return Some(grid);
      }
    }
    return None;
  }

  /** One turn of the action loop of `analyze_guards_patrol_pattern`, with
      the counter of turns left. */
  method PatrolStep(grid: Map, pos: Position, dir: Direction, remaining: nat)
    returns (out: bool, grid': Map, pos': Position, dir': Direction, remaining': nat)
    requires ValidGuard(Guard(grid, pos, dir)) && remaining >= 1
    ensures remaining' == remaining - 1
    ensures out ==> grid' == grid && pos' == pos && Patrol(Guard(grid, pos, dir), remaining) == Some(Leave(Guard(grid, pos, dir)))
    ensures !out ==> ValidGuard(Guard(grid', pos', dir'))
    ensures !out ==> Patrol(Guard(grid', pos', dir'), remaining') == Patrol(Guard(grid, pos, dir), remaining)
  {
    remaining' := remaining - 1;
    PatrolTurn(Guard(grid, pos, dir), remaining);
    var made;
    out, grid', pos', dir', made := TakePlainTurn(grid, pos, dir);
  }

  /** `analyze_guards_patrol_pattern`, for at most `fuel` turns of its
      loop, on a square grid. On a grid taller than wide the source only
      finds a guard in the top rows and its walk stops at row = width; on a
      wider one `find_guard` or the walk reads outside the grid and panics.
      Neither case is modelled. */
  method AnalyzeGuardsPatrolPattern(input: string, fuel: nat) returns (r: Option<nat>)
    requires Square(ReadMap(input))
    ensures r == VisitedCount(ReadMap(input), fuel)
  {
    var grid := ReadMap(input);
    var found, sourcePosition, guardOrientation := LocateGuard(grid);
    if !found {
      return None;
    }
    var left := WalkPatrol(grid, sourcePosition, guardOrientation, fuel);
    if left.None? {
      return None;
    }
    var visited := GetAmountOfX(left.value);
    return visited;
  }

  // ---------------------------------------------------------------------
  // the loop tests for a candidate obstruction
  // ---------------------------------------------------------------------

  /** The loop of `blocking_dest_redoes_a_move` with `steps` on its counter
      before the decrement that opens each turn. True when the counter
      reaches 0 or a step repeats a move already made (same direction, same
      cell reached); false when the guard walks off the grid. */
  function Redo(g: Guard, moves: seq<Move>, obstruction: Position, steps: nat): bool
    requires ValidGuard(g) && OnMap(g.grid, obstruction) && steps >= 1
    decreases steps
  {
    if steps - 1 == 0 then true
    else
      match ObstructedStep(g, obstruction)
      case Out => false
      case Walked(next, None) => Redo(next, moves, obstruction, steps - 1)
      case Walked(next, Some(m)) => m in moves || Redo(next, moves + [m], obstruction, steps - 1)
  }

  /** The first turn of the test with the record of moves and the rest of
      it. */
  lemma {:induction false} RedoTurn(g: Guard, moves: seq<Move>, obstruction: Position, steps: nat)
    requires ValidGuard(g) && OnMap(g.grid, obstruction) && steps >= 2
    ensures ObstructedStep(g, obstruction).Out? ==> !Redo(g, moves, obstruction, steps)
    ensures ObstructedStep(g, obstruction).Walked? && ObstructedStep(g, obstruction).made.None? ==>
              Redo(g, moves, obstruction, steps) == Redo(ObstructedStep(g, obstruction).g, moves, obstruction, steps - 1)
    ensures ObstructedStep(g, obstruction).Walked? && ObstructedStep(g, obstruction).made.Some? ==>
              var m := ObstructedStep(g, obstruction).made.value;
              Redo(g, moves, obstruction, steps)
              == (m in moves || Redo(ObstructedStep(g, obstruction).g, moves + [m], obstruction, steps - 1))
  {
  }

  /** The loop of `test_if_goes_forever`: the same walk without the record
      of moves. True when the counter reaches 0, false when the guard walks
      off the grid. */
  function Forever(g: Guard, obstruction: Position, steps: nat): bool
    requires ValidGuard(g) && OnMap(g.grid, obstruction) && steps >= 1
    decreases steps
  {
    if steps - 1 == 0 then true
    else
      match ObstructedStep(g, obstruction)
      case Out => false
      case Walked(next, _) => Forever(next, obstruction, steps - 1)
  }

  /** The first turn of the test without the record of moves and the rest
      of it. */
  lemma {:induction false} ForeverTurn(g: Guard, obstruction: Position, steps: nat)
    requires ValidGuard(g) && OnMap(g.grid, obstruction) && steps >= 2
    ensures ObstructedStep(g, obstruction).Out? ==> !Forever(g, obstruction, steps)
    ensures ObstructedStep(g, obstruction).Walked? ==>
              Forever(g, obstruction, steps) == Forever(ObstructedStep(g, obstruction).g, obstruction, steps - 1)
  {
  }

  /** A turn of that test in which the guard stays on the grid, with the
      counter after it named `rest`. */
  lemma {:induction false} ForeverWalkedTurn(g: Guard, obstruction: Position, steps: nat, next: Guard, rest: nat)
    requires ValidGuard(g) && OnMap(g.grid, obstruction) && steps >= 2 && rest == steps - 1
    requires ObstructedStep(g, obstruction).Walked? && ObstructedStep(g, obstruction).g == next
    ensures ValidGuard(next) && OnMap(next.grid, obstruction)
    ensures Forever(g, obstruction, steps) == Forever(next, obstruction, rest)
  {
    ForeverTurn(g, obstruction, steps);
  }

  /** When the test with the record of moves sees the guard leave, so does
      the test without it: the record only adds ways to answer true. */
  lemma {:induction false} RedoFalseThenForeverFalse(g: Guard, moves: seq<Move>, obstruction: Position, steps: nat)
    requires ValidGuard(g) && OnMap(g.grid, obstruction) && steps >= 1
    ensures !Redo(g, moves, obstruction, steps) ==> !Forever(g, obstruction, steps)
    decreases steps
  {
    if steps - 1 != 0 {
      RedoTurn(g, moves, obstruction, steps);
      ForeverTurn(g, obstruction, steps);
      var t := ObstructedStep(g, obstruction);
      if t.Walked? {
        if t.made.Some? {
          RedoFalseThenForeverFalse(t.g, moves + [t.made.value], obstruction, steps - 1);
        } else {
          RedoFalseThenForeverFalse(t.g, moves, obstruction, steps - 1);
        }
      }
    }
  }

  /** A candidate obstruction placed on a cell that already holds an obstacle acts
      as that wall: the test then answers whether the plain patrol is still
      going after as many turns as the counter allows. */
  lemma {:induction false} ObstructionOnWallIsPatrol(g: Guard, obstruction: Position, steps: nat)
    requires ValidGuard(g) && OnMap(g.grid, obstruction) && steps >= 1
    requires IsObstacle(g.grid[obstruction.y][obstruction.x])
    ensures Forever(g, obstruction, steps) == Patrol(g, steps - 1).None?
    decreases steps
  {
    if steps - 1 != 0 {
      var rest: nat := steps - 1;
      ObstructionOnWallStep(g, obstruction);
      var t := PlainStep(g);
      if t.Walked? {
        ForeverWalkedTurn(g, obstruction, steps, t.g, rest);
        PatrolWalkedTurn(g, rest, t.g, rest - 1);
        ObstructionOnWallIsPatrol(t.g, obstruction, rest);
      } else {
        ForeverTurn(g, obstruction, steps);
        PatrolTurn(g, rest);
      }
    }
  }

  /** The action loop of `blocking_dest_redoes_a_move` from the guard at
      `pos` facing `dir`, with `steps` on the counter. */
  method RedoLoop(grid0: Map, pos: Position, dir: Direction, moves: seq<Move>, obstructionToTest: Position, steps0: nat)
    returns (r: bool)
    requires ValidGuard(Guard(grid0, pos, dir)) && OnMap(grid0, obstructionToTest) && steps0 >= 1
    ensures r == Redo(Guard(grid0, pos, dir), moves, obstructionToTest, steps0)
  {
    var steps := steps0;
    var movesForThis := moves;
    var grid, sourcePosition, guardOrientation := grid0, pos, dir;
    while true
      invariant 1 <= steps
      invariant ValidGuard(Guard(grid, sourcePosition, guardOrientation)) && OnMap(grid, obstructionToTest)
      invariant Redo(Guard(grid, sourcePosition, guardOrientation), movesForThis, obstructionToTest, steps)
                == Redo(Guard(grid0, pos, dir), moves, obstructionToTest, steps0)
      decreases steps
    {
      var done: bool;
      done, r, grid, sourcePosition, guardOrientation, movesForThis, steps :=
        RedoStep(grid, sourcePosition, guardOrientation, movesForThis, obstructionToTest, steps);
      if done {
        return;
      }
    }
  }

  /** One turn of the action loop of `blocking_dest_redoes_a_move`: the
      answer when the turn ends the loop, otherwise the state and the counter
      for the next turn. */
  method RedoStep(grid: Map, pos: Position, dir: Direction, moves: seq<Move>, obstructionToTest: Position, steps: nat)
    returns (done: bool, r: bool, grid': Map, pos': Position, dir': Direction, moves': seq<Move>, steps': nat)
    requires ValidGuard(Guard(grid, pos, dir)) && OnMap(grid, obstructionToTest) && steps >= 1
    ensures done ==> r == Redo(Guard(grid, pos, dir), moves, obstructionToTest, steps)
    ensures !done ==> steps' == steps - 1 && steps' >= 1
    ensures !done ==> ValidGuard(Guard(grid', pos', dir')) && OnMap(grid', obstructionToTest)
    ensures !done ==> Redo(Guard(grid', pos', dir'), moves', obstructionToTest, steps')
                      == Redo(Guard(grid, pos, dir), moves, obstructionToTest, steps)
  {
    steps' := steps - 1;
    grid', pos', dir', moves' := grid, pos, dir, moves;
    if steps' == 0 {
      return true, true, grid', pos', dir', moves', steps';
    }
    RedoTurn(Guard(grid, pos, dir), moves, obstructionToTest, steps);
    var out, made;
    out, grid', pos', dir', made := TakeTurn(grid, pos, dir, obstructionToTest);
    if out {
      return true, false, grid', pos', dir', moves', steps';
    }
    done, r := false, false;
    if made.Some? {
      if made.value in moves {
        return true, true, grid', pos', dir', moves', steps';
      }
      moves' := moves + [made.value];
    }
  }

  /** `blocking_dest_redoes_a_move`: the walk from the guard found on the
      grid, with the moves made so far, for at most 30000 turns. */
  method BlockingDestRedoesAMove(sourceMap: Map, moves: seq<Move>, obstructionToTest: Position) returns (r: bool)
    requires Square(sourceMap) && OnMap(sourceMap, obstructionToTest) && !NoGuard(sourceMap)
    ensures r == Redo(Start(sourceMap).value, moves, obstructionToTest, 30000)
  {
    var found, sourcePosition, guardOrientation := LocateGuard(sourceMap);
    r := RedoLoop(sourceMap, sourcePosition, guardOrientation, moves, obstructionToTest, 30000);
  }

  /** The action loop of `test_if_goes_forever` from the guard at `pos`
      facing `dir`, with `steps` on the counter. */
  method ForeverLoop(grid0: Map, pos: Position, dir: Direction, obstructionToTest: Position, steps0: nat)
    returns (r: bool)
    requires ValidGuard(Guard(grid0, pos, dir)) && OnMap(grid0, obstructionToTest) && steps0 >= 1
    ensures r == Forever(Guard(grid0, pos, dir), obstructionToTest, steps0)
  {
    var steps := steps0;
    var grid, sourcePosition, guardOrientation := grid0, pos, dir;
    while true
      invariant 1 <= steps
      invariant ValidGuard(Guard(grid, sourcePosition, guardOrientation)) && OnMap(grid, obstructionToTest)
      invariant Forever(Guard(grid, sourcePosition, guardOrientation), obstructionToTest, steps)
                == Forever(Guard(grid0, pos, dir), obstructionToTest, steps0)
      decreases steps
    {
      var done: bool;
      done, r, grid, sourcePosition, guardOrientation, steps :=
        ForeverStep(grid, sourcePosition, guardOrientation, obstructionToTest, steps);
      if done {
        return;
      }
    }
  }

  /** One turn of the action loop of `test_if_goes_forever`: the answer
      when the turn ends the loop, otherwise the state and the counter for
      the next turn. */
  method ForeverStep(grid: Map, pos: Position, dir: Direction, obstructionToTest: Position, steps: nat)
    returns (done: bool, r: bool, grid': Map, pos': Position, dir': Direction, steps': nat)
    requires ValidGuard(Guard(grid, pos, dir)) && OnMap(grid, obstructionToTest) && steps >= 1
    ensures done ==> r == Forever(Guard(grid, pos, dir), obstructionToTest, steps)
    ensures !done ==> steps' == steps - 1 && steps' >= 1
    ensures !done ==> ValidGuard(Guard(grid', pos', dir')) && OnMap(grid', obstructionToTest)
    ensures !done ==> Forever(Guard(grid', pos', dir'), obstructionToTest, steps')
                      == Forever(Guard(grid, pos, dir), obstructionToTest, steps)
  {
    steps' := steps - 1;
    grid', pos', dir' := grid, pos, dir;
    if steps' == 0 {
      return true, true, grid', pos', dir', steps';
    }
    ForeverTurn(Guard(grid, pos, dir), obstructionToTest, steps);
    var out, made;
    out, grid', pos', dir', made := TakeTurn(grid, pos, dir, obstructionToTest);
    done, r := out, false;
  }

  /** `test_if_goes_forever`: the walk from the guard found on the grid for
      at most 20000 turns. */
  method TestIfGoesForever(sourceMap: Map, obstructionToTest: Position) returns (r: bool)
    requires Square(sourceMap) && OnMap(sourceMap, obstructionToTest) && !NoGuard(sourceMap)
    ensures r == Forever(Start(sourceMap).value, obstructionToTest, 20000)
  {
    var found, sourcePosition, guardOrientation := LocateGuard(sourceMap);
    r := ForeverLoop(sourceMap, sourcePosition, guardOrientation, obstructionToTest, 20000);
  }

  // ---------------------------------------------------------------------
  // the check against the known obstacles
  // ---------------------------------------------------------------------

  /** The walk of `test_possible_obstruction` for at most `fuel` turns: the
      first obstacle other than the candidate obstruction that the guard faces
      (Some(Some(p))), or Some(None) when the guard walks off the grid
      first. The obstruction itself is drawn and turned away from as in the
      loop tests. */
  function FirstHit(g: Guard, obstruction: Position, fuel: nat): Option<Option<Position>>
    requires ValidGuard(g) && OnMap(g.grid, obstruction)
    decreases fuel
  {
    if fuel == 0 then None
    else
      var dest := Ahead(g);
      if dest != obstruction && IsPositionInsideOfMap(dest, g.grid) && IsObstacle(g.grid[dest.y][dest.x]) then
        Some(Some(dest))
      else
        match ObstructedStep(g, obstruction)
        case Out => Some(None)
        case Walked(next, _) => FirstHit(next, obstruction, fuel - 1)
  }

  /** The first turn of that walk and the rest of it. */
  lemma {:induction false} FirstHitTurn(g: Guard, obstruction: Position, fuel: nat)
    requires ValidGuard(g) && OnMap(g.grid, obstruction) && fuel >= 1
    requires !(Ahead(g) != obstruction && OnMap(g.grid, Ahead(g)) && IsObstacle(g.grid[Ahead(g).y][Ahead(g).x]))
    ensures ObstructedStep(g, obstruction).Out? ==> FirstHit(g, obstruction, fuel) == Some(None)
    ensures ObstructedStep(g, obstruction).Walked? ==>
              FirstHit(g, obstruction, fuel) == FirstHit(ObstructedStep(g, obstruction).g, obstruction, fuel - 1)
  {
  }

  /** A turn of that walk in which the guard stays on the grid, with the
      turns left after it named `rest`. */
  lemma {:induction false} FirstHitWalkedTurn(g: Guard, obstruction: Position, fuel: nat, next: Guard, rest: nat)
    requires ValidGuard(g) && OnMap(g.grid, obstruction) && fuel >= 1 && rest == fuel - 1
    requires !(Ahead(g) != obstruction && OnMap(g.grid, Ahead(g)) && IsObstacle(g.grid[Ahead(g).y][Ahead(g).x]))
    requires ObstructedStep(g, obstruction).Walked? && ObstructedStep(g, obstruction).g == next
    ensures ValidGuard(next) && OnMap(next.grid, obstruction)
    ensures FirstHit(g, obstruction, fuel) == FirstHit(next, obstruction, rest)
  {
    FirstHitTurn(g, obstruction, fuel);
  }

  /** Every obstacle on `cur`, apart from one drawn at the obstruction, was
      already on `orig`. */
  ghost predicate ObstaclesFrom(orig: Map, cur: Map, obstruction: Position)
  {
    forall y, x :: 0 <= y < |cur| && 0 <= x < |cur[y]| && IsObstacle(cur[y][x]) && Position(x, y) != obstruction ==>
      OnMap(orig, Position(x, y)) && IsObstacle(orig[y][x])
  }

  /** Writing anything but an obstacle, or writing at the obstruction,
      draws no new obstacle. */
  lemma SetCellKeepsObstacles(orig: Map, grid: Map, p: Position, c: char, obstruction: Position)
    requires OnMap(grid, p) && ObstaclesFrom(orig, grid, obstruction)
    requires !IsObstacle(c) || p == obstruction
    ensures ObstaclesFrom(orig, SetCell(grid, p, c), obstruction)
  {
    SetCellWrites(grid, p, c);
  }

  /** A turn of a loop test draws no obstacle but the candidate obstruction. */
  lemma ObstructedStepDrawsNoObstacle(orig: Map, g: Guard, obstruction: Position)
    requires ValidGuard(g) && OnMap(g.grid, obstruction) && ObstaclesFrom(orig, g.grid, obstruction)
    ensures ObstructedStep(g, obstruction).Walked? ==> ObstaclesFrom(orig, ObstructedStep(g, obstruction).g.grid, obstruction)
  {
    var dest := Ahead(g);
    if dest == obstruction {
      SetCellKeepsObstacles(orig, g.grid, dest, '#', obstruction);
      SetCellKeepsObstacles(orig, SetCell(g.grid, dest, '#'), g.pos, GuardSymbol(RotateClockwise(g.dir)), obstruction);
    } else if !IsPositionInsideOfMap(dest, g.grid) {
    } else if IsClearWay(g.grid[dest.y][dest.x]) {
      SetCellKeepsObstacles(orig, g.grid, g.pos, 'X', obstruction);
      SetCellKeepsObstacles(orig, SetCell(g.grid, g.pos, 'X'), dest, GuardSymbol(g.dir), obstruction);
    } else if IsObstacle(g.grid[dest.y][dest.x]) {
      SetCellKeepsObstacles(orig, g.grid, g.pos, GuardSymbol(RotateClockwise(g.dir)), obstruction);
    }
  }

  /** A walk's answer names, if anything, an obstacle of the original
      grid other than the candidate obstruction. */
  predicate HitsOriginal(orig: Map, obstruction: Position, r: Option<Option<Position>>)
  {
    r.Some? && r.value.Some? ==>
      var p := r.value.value;
      p != obstruction && OnMap(orig, p) && IsObstacle(orig[p.y][p.x])
  }

  /** The obstacle found is one of the original grid, never the candidate
      obstruction, and lies on the grid. */
  lemma {:induction false} FirstHitIsOriginalObstacle(orig: Map, g: Guard, obstruction: Position, fuel: nat)
    requires ValidGuard(g) && OnMap(g.grid, obstruction) && ObstaclesFrom(orig, g.grid, obstruction)
    ensures HitsOriginal(orig, obstruction, FirstHit(g, obstruction, fuel))
    decreases fuel
  {
    if fuel > 0 {
      var dest := Ahead(g);
      if !(dest != obstruction && IsPositionInsideOfMap(dest, g.grid) && IsObstacle(g.grid[dest.y][dest.x])) {
        var t := ObstructedStep(g, obstruction);
        if t.Out? {
          FirstHitTurn(g, obstruction, fuel);
        } else {
          var rest: nat := fuel - 1;
          FirstHitWalkedTurn(g, obstruction, fuel, t.g, rest);
          ObstructedStepDrawsNoObstacle(orig, g, obstruction);
          FirstHitIsOriginalObstacle(orig, t.g, obstruction, rest);
        }
      }
    }
  }

  /** What `test_possible_obstruction` answers: whether the first obstacle
      faced is one of the known ones; false when the guard leaves first. */
  function PossibleObstruction(grid: Map, knownObstacles: seq<Position>, obstruction: Position, fuel: nat): Option<bool>
    requires Square(grid) && OnMap(grid, obstruction) && !NoGuard(grid)
  {
    match FirstHit(Start(grid).value, obstruction, fuel)
    case None => None
    case Some(None) => Some(false)
    case Some(Some(p)) => Some(p in knownObstacles)
  }

  /** The answer is true only when the obstacle faced is a known one that
      stands on the original grid, other than the candidate obstruction. */
  lemma PossibleObstructionMeaning(grid: Map, knownObstacles: seq<Position>, obstruction: Position, fuel: nat)
    requires Square(grid) && OnMap(grid, obstruction) && !NoGuard(grid)
    ensures PossibleObstruction(grid, knownObstacles, obstruction, fuel) == Some(true) ==>
              exists p :: p in knownObstacles && p != obstruction && OnMap(grid, p) && IsObstacle(grid[p.y][p.x])
  {
    FirstHitIsOriginalObstacle(grid, Start(grid).value, obstruction, fuel);
  }

  /** The action loop of `test_possible_obstruction`, for at most `fuel`
      turns. */
  method HitLoop(grid0: Map, pos: Position, dir: Direction, obstructionToTest: Position, fuel: nat)
    returns (hit: Option<Option<Position>>)
    requires ValidGuard(Guard(grid0, pos, dir)) && OnMap(grid0, obstructionToTest)
    ensures hit == FirstHit(Guard(grid0, pos, dir), obstructionToTest, fuel)
  {
    var grid, sourcePosition, guardOrientation := grid0, pos, dir;
    var remaining := fuel;
    while remaining > 0
      invariant ValidGuard(Guard(grid, sourcePosition, guardOrientation)) && OnMap(grid, obstructionToTest)
      invariant FirstHit(Guard(grid, sourcePosition, guardOrientation), obstructionToTest, remaining)
                == FirstHit(Guard(grid0, pos, dir), obstructionToTest, fuel)
    {
      var done: bool;
      done, hit, grid, sourcePosition, guardOrientation, remaining :=
        HitStep(grid, sourcePosition, guardOrientation, obstructionToTest, remaining);
      if done {
        return;
      }
    }
    return None;
  }

  /** One turn of the action loop of `test_possible_obstruction`: the
      answer when the turn ends the loop, otherwise the state and the
      counter for the next turn. */
  method HitStep(grid: Map, pos: Position, dir: Direction, obstructionToTest: Position, remaining: nat)
    returns (done: bool, hit: Option<Option<Position>>, grid': Map, pos': Position, dir': Direction, remaining': nat)
    requires ValidGuard(Guard(grid, pos, dir)) && OnMap(grid, obstructionToTest) && remaining >= 1
    ensures remaining' == remaining - 1
    ensures done ==> hit == FirstHit(Guard(grid, pos, dir), obstructionToTest, remaining)
    ensures !done ==> ValidGuard(Guard(grid', pos', dir')) && OnMap(grid', obstructionToTest)
    ensures !done ==> FirstHit(Guard(grid', pos', dir'), obstructionToTest, remaining')
                      == FirstHit(Guard(grid, pos, dir), obstructionToTest, remaining)
  {
    remaining' := remaining - 1;
    grid', pos', dir' := grid, pos, dir;
    var destPosition := Destination(pos, dir);
    if destPosition != obstructionToTest && IsPositionInsideOfMap(destPosition, grid)
       && IsObstacle(grid[destPosition.y][destPosition.x])
    {
      return true, Some(Some(destPosition)), grid', pos', dir', remaining';
    }
    FirstHitTurn(Guard(grid, pos, dir), obstructionToTest, remaining);
    var out, made;
    out, grid', pos', dir', made := TakeTurn(grid, pos, dir, obstructionToTest);
    done, hit := out, Some(None);
  }

  /** The scan of the known obstacles for the one faced. */
  method IsKnownObstacle(knownObstacles: seq<Position>, p: Position) returns (r: bool)
    ensures r <==> p in knownObstacles
  {
    for i := 0 to |knownObstacles|
      invariant p !in knownObstacles[..i]
    {
      if knownObstacles[i] == p {
        return true;
      }
    }
    return false;
  }

  /** `test_possible_obstruction`, for at most `fuel` turns of its loop. */
  method TestPossibleObstruction(sourceMap: Map, knownObstacles: seq<Position>, obstructionToTest: Position, fuel: nat)
    returns (r: Option<bool>)
    requires Square(sourceMap) && OnMap(sourceMap, obstructionToTest) && !NoGuard(sourceMap)
    ensures r == PossibleObstruction(sourceMap, knownObstacles, obstructionToTest, fuel)
  {
    var found, sourcePosition, guardOrientation := LocateGuard(sourceMap);
    var hit := HitLoop(sourceMap, sourcePosition, guardOrientation, obstructionToTest, fuel);
    if hit.None? {
      return None;
    }
    if hit.value.None? {
      return Some(false);
    }
    var known := IsKnownObstacle(knownObstacles, hit.value.value);
    return Some(known);
  }

  // ---------------------------------------------------------------------
  // the search for every obstruction
  // ---------------------------------------------------------------------

  /** The test `find_all_possible_obstructions` makes before each step onto
      a clear cell: the loop test with the record of moves, run on the grid
      as it is, with the cell ahead as the obstruction. */
  function Blocks(g: Guard, moves: seq<Move>, dest: Position): bool
    requires ValidGuard(g) && OnMap(g.grid, dest)
  {
    StartOfValid(g);
    Redo(Start(g.grid).value, moves, dest, 30000)
  }

  /** `valid_obstructions.push` behind its two guards: the test found the
      cell blocking, and the cell is not listed yet. */
  function AddOnce(valid: seq<Position>, p: Position, blocked: bool): (r: seq<Position>)
    ensures p in valid || !blocked ==> r == valid
    ensures p !in valid && blocked ==> r == valid + [p]
  {
    if blocked && p !in valid then valid + [p] else valid
  }

  /** Positions that name cells of an n by n grid. */
  predicate InSquare(n: nat, ps: seq<Position>)
  {
    forall i :: 0 <= i < |ps| ==> 0 <= ps[i].x < n && 0 <= ps[i].y < n
  }

  /** Cells of an n by n grid, each listed once, stated one entry at a
      time from the end: the last entry is a cell of the grid that the
      entries before it do not list, and so on. */
  predicate ListedOnce(n: nat, ps: seq<Position>)
    decreases |ps|
  {
    |ps| == 0 ||
    (var last := ps[|ps| - 1];
     0 <= last.x < n && 0 <= last.y < n && last !in ps[..|ps| - 1] && ListedOnce(n, ps[..|ps| - 1]))
  }

  /** Listing once, entry by entry, is having no duplicates and only cells
      of the grid. */
  lemma {:induction false} ListedOnceMeaning(n: nat, ps: seq<Position>)
    ensures ListedOnce(n, ps) <==> NoDuplicates(ps) && InSquare(n, ps)
    decreases |ps|
  {
    if |ps| > 0 {
      var init := ps[..|ps| - 1];
      ListedOnceMeaning(n, init);
      assert forall i :: 0 <= i < |init| ==> init[i] == ps[i];
    }
  }

  /** A finished search listed each position once, each a cell of an n by
      n grid. */
  predicate ReportedOnce(n: nat, r: Option<seq<Position>>)
  {
    r.Some? ==> ListedOnce(n, r.value)
  }

  /** Adding a cell of the grid only when it is not listed keeps the list
      free of duplicates and within the grid. */
  lemma {:induction false} AddOnceKeepsDistinct(valid: seq<Position>, p: Position, blocked: bool, n: nat)
    requires 0 <= p.x < n && 0 <= p.y < n
    ensures ListedOnce(n, valid) ==> ListedOnce(n, AddOnce(valid, p, blocked))
  {
    var r := AddOnce(valid, p, blocked);
    if blocked && p !in valid {
      assert r[..|r| - 1] == valid;
    }
  }

  /** The action loop of `find_all_possible_obstructions` for at most `fuel`
      turns: the obstructions found, each added once, when the guard walks
      off the grid. */
  function Obstructions(g: Guard, moves: seq<Move>, valid: seq<Position>, fuel: nat): (r: Option<seq<Position>>)
    requires ValidGuard(g)
    decreases fuel
  {
    if fuel == 0 then None
    else
      match PlainStep(g)
      case Out => Some(valid)
      case Walked(next, None) => Obstructions(next, moves, valid, fuel - 1)
      case Walked(next, Some(m)) =>
        Obstructions(next, moves + [m], AddOnce(valid, m.pos, Blocks(g, moves, m.pos)), fuel - 1)
  }

  /** The first turn of the search and the rest of it. */
  lemma {:induction false} ObstructionsTurn(g: Guard, moves: seq<Move>, valid: seq<Position>, fuel: nat)
    requires ValidGuard(g) && fuel >= 1
    ensures PlainStep(g).Out? ==> Obstructions(g, moves, valid, fuel) == Some(valid)
    ensures PlainStep(g).Walked? && PlainStep(g).made.None? ==>
              Obstructions(g, moves, valid, fuel) == Obstructions(PlainStep(g).g, moves, valid, fuel - 1)
    ensures PlainStep(g).Walked? && PlainStep(g).made.Some? ==>
              var m := PlainStep(g).made.value;
              Obstructions(g, moves, valid, fuel)
              == Obstructions(PlainStep(g).g, moves + [m], AddOnce(valid, m.pos, Blocks(g, moves, m.pos)), fuel - 1)
  {
  }

  /** The search reports each obstruction once, and only cells of the
      grid: `r` is what the search returns. */
  lemma {:induction false} ObstructionsDistinct(g: Guard, moves: seq<Move>, valid: seq<Position>, fuel: nat, n: nat, r: Option<seq<Position>>)
    requires ValidGuard(g) && n == |g.grid| && ReportedOnce(n, Some(valid))
    requires r == Obstructions(g, moves, valid, fuel)
    ensures ReportedOnce(n, r)
    decreases fuel, 1
  {
    if fuel == 0 {
      assert r == None;
    } else if PlainStep(g).Out? {
      ObstructionsTurn(g, moves, valid, fuel);
      assert r == Some(valid);
    } else {
      WalkedObstructionsDistinct(g, moves, valid, fuel, n, r);
    }
  }

  /** The step of `ObstructionsDistinct` where the guard stays on the
      grid. */
  lemma {:induction false} WalkedObstructionsDistinct(g: Guard, moves: seq<Move>, valid: seq<Position>, fuel: nat, n: nat, r: Option<seq<Position>>)
    requires ValidGuard(g) && n == |g.grid| && ReportedOnce(n, Some(valid))
    requires fuel > 0 && PlainStep(g).Walked?
    requires r == Obstructions(g, moves, valid, fuel)
    ensures ReportedOnce(n, r)
    decreases fuel, 0
  {
    var t := PlainStep(g);
    var rest: nat := fuel - 1;
    if t.made.Some? {
      var m := t.made.value;
      var moves' := moves + [m];
      var valid' := AddOnce(valid, m.pos, Blocks(g, moves, m.pos));
      ObstructionsMadeTurn(g, moves, valid, fuel, t.g, m, moves', valid', rest);
      AddOnceKeepsDistinct(valid, m.pos, Blocks(g, moves, m.pos), n);
      ObstructionsDistinct(t.g, moves', valid', rest, n, r);
    } else {
      ObstructionsStillTurn(g, moves, valid, fuel, t.g, rest);
      ObstructionsDistinct(t.g, moves, valid, rest, n, r);
    }
  }

  /** A turn of the search in which the guard moves on by one cell. */
  lemma {:induction false} ObstructionsMadeTurn(g: Guard, moves: seq<Move>, valid: seq<Position>, fuel: nat,
                             next: Guard, m: Move, moves': seq<Move>, valid': seq<Position>, rest: nat)
    requires ValidGuard(g) && fuel >= 1 && rest == fuel - 1 && PlainStep(g) == Walked(next, Some(m))
    requires moves' == moves + [m] && valid' == AddOnce(valid, m.pos, Blocks(g, moves, m.pos))
    ensures ValidGuard(next)
    ensures Obstructions(g, moves, valid, fuel) == Obstructions(next, moves', valid', rest)
  {
    var t := PlainStep(g);
    assert t.g == next && t.made == Some(m);
    ObstructionsTurn(g, moves, valid, fuel);
    assert Obstructions(g, moves, valid, fuel)
           == Obstructions(next, moves + [m], AddOnce(valid, m.pos, Blocks(g, moves, m.pos)), fuel - 1);
  }

  /** A turn of the search in which the guard turns or stays put. */
  lemma {:induction false} ObstructionsStillTurn(g: Guard, moves: seq<Move>, valid: seq<Position>, fuel: nat, next: Guard, rest: nat)
    requires ValidGuard(g) && fuel >= 1 && rest == fuel - 1 && PlainStep(g) == Walked(next, None)
    ensures ValidGuard(next)
    ensures Obstructions(g, moves, valid, fuel) == Obstructions(next, moves, valid, rest)
  {
    ObstructionsTurn(g, moves, valid, fuel);
  }

  /** What `find_all_possible_obstructions` returns: how many obstructions
      the search finds; None where there is no guard to find or the fuel
      runs out. */
  function ObstructionCount(grid: Map, fuel: nat): (r: Option<nat>)
    requires Square(grid)
    ensures NoGuard(grid) ==> r.None?
  {
    match Start(grid)
    case None => None
    case Some(g) =>
      match Obstructions(g, [], [], fuel)
      case None => None
      case Some(valid) => Some(|valid|)
  }

  /** One turn of the action loop of `find_all_possible_obstructions`,
      with the test of the cell ahead on the grid as it was before the
      step. */
  method SearchTurn(grid: Map, pos: Position, dir: Direction, moves: seq<Move>, valid: seq<Position>, remaining: nat)
    returns (out: bool, grid': Map, pos': Position, dir': Direction, moves': seq<Move>, valid': seq<Position>, remaining': nat)
    requires ValidGuard(Guard(grid, pos, dir)) && remaining >= 1
    ensures remaining' == remaining - 1
    ensures out ==> valid' == valid && Obstructions(Guard(grid, pos, dir), moves, valid, remaining) == Some(valid)
    ensures !out ==> ValidGuard(Guard(grid', pos', dir'))
    ensures !out ==> Obstructions(Guard(grid', pos', dir'), moves', valid', remaining')
                     == Obstructions(Guard(grid, pos, dir), moves, valid, remaining)
  {
    remaining' := remaining - 1;
    ObstructionsTurn(Guard(grid, pos, dir), moves, valid, remaining);
    var made;
    out, grid', pos', dir', made := TakePlainTurn(grid, pos, dir);
    moves', valid' := moves, valid;
    if !out && made.Some? {
      var destPosition := made.value.pos;
      var blocked := BlockingDestRedoesAMove(grid, moves, destPosition);
      if blocked && destPosition !in valid {
        valid' := valid + [destPosition];
      }
      moves' := moves + [made.value];
    }
  }

  /** The action loop of `find_all_possible_obstructions`, from the guard
      at `pos` facing `dir` with `moves0` made and `valid0` found so far.
      The test of the cell ahead runs on the grid as it was before the
      step, as in the source, which clones the grid for it before writing
      the step. */
  method ObstructionsLoop(grid0: Map, pos: Position, dir: Direction, moves0: seq<Move>, valid0: seq<Position>, fuel: nat)
    returns (found: Option<seq<Position>>)
    requires ValidGuard(Guard(grid0, pos, dir))
    ensures found == Obstructions(Guard(grid0, pos, dir), moves0, valid0, fuel)
  {
    var validObstructions := valid0;
    var moves := moves0;
    var grid, sourcePosition, guardOrientation := grid0, pos, dir;
    var remaining := fuel;
    while remaining > 0
      invariant ValidGuard(Guard(grid, sourcePosition, guardOrientation))
      invariant Obstructions(Guard(grid, sourcePosition, guardOrientation), moves, validObstructions, remaining)
                == Obstructions(Guard(grid0, pos, dir), moves0, valid0, fuel)
    {
      var out: bool;
      out, grid, sourcePosition, guardOrientation, moves, validObstructions, remaining :=
        SearchTurn(grid, sourcePosition, guardOrientation, moves, validObstructions, remaining);
      if out {
        return Some(validObstructions);
      }
    }
    return None;
  }

  /** `find_all_possible_obstructions`, for at most `fuel` turns of its
      loop, on a square grid. On a grid taller than wide the source only
      finds a guard in the top rows and its walk stops at row = width; on a
      wider one `find_guard` or the walk reads outside the grid and panics.
      Neither case is modelled. */
  method FindAllPossibleObstructions(input: string, fuel: nat) returns (r: Option<nat>)
    requires Square(ReadMap(input))
    ensures r == ObstructionCount(ReadMap(input), fuel)
  {
    var grid := ReadMap(input);
    var found, sourcePosition, guardOrientation := LocateGuard(grid);
    if !found {
      return None;
    }
    var valid := ObstructionsLoop(grid, sourcePosition, guardOrientation, [], [], fuel);
    if valid.None? {
      return None;
    }
    return Some(|valid.value|);
  }
}
