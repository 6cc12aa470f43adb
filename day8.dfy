/** Day 8: antennas of one frequency, taken in pairs, project antinodes
    along the line through them, in both directions, as far as the map
    reaches; the answer is the number of distinct antinode positions. */
module Day8 {
  import opened Text

  /** A cell position: x is the column, y the row (`i32` in the source). */
  datatype Position = Position(x: int, y: int)

  /** The map, row by row. */
  datatype Map = Map(coordinates: seq<seq<char>>)

  // ---------------------------------------------------------------------
  // the map
  // ---------------------------------------------------------------------

  /** `read_map`: one row of characters per input line. */
  function ReadMap(input: string): (r: Map)
    ensures forall y :: 0 <= y < |r.coordinates| ==> '\n' !in r.coordinates[y]
    ensures |r.coordinates| <= |Split(input, '\n')|
  {
    Map(Lines(input))
  }

  /** Rows written out one per line are read back as the same map. */
  lemma {:induction false} ReadMapOfRows(rows: seq<seq<char>>)
    requires forall i :: 0 <= i < |rows| ==> PlainLine(rows[i])
    ensures ReadMap(Join(rows + [""], '\n')) == Map(rows)
  {
    LinesOfNewlineTerminated(rows);
  }

  /** `get_width`: the length of the first row; it panics on an empty map. */
  function Width(m: Map): nat
    requires |m.coordinates| > 0
  {
    |m.coordinates[0]|
  }

  /** `get_height`: the number of rows. */
  function Height(m: Map): nat
  {
    |m.coordinates|
  }

  /** `is_position_free`: the cell holds '.'. */
  predicate IsPositionFree(m: Map, p: Position)
    requires 0 <= p.y < |m.coordinates| && 0 <= p.x < |m.coordinates[p.y]|
  {
    m.coordinates[p.y][p.x] == '.'
  }

  /** `is_position_in_map`: both coordinates are non-negative, x is below
      the width of the first row and y below the number of rows. On a map
      whose rows are all as wide as the first, that is exactly "names a
      cell". */
  predicate IsPositionInMap(p: Position, m: Map)
    requires |m.coordinates| > 0
    ensures (forall y :: 0 <= y < |m.coordinates| ==> |m.coordinates[y]| == |m.coordinates[0]|) ==>
              (IsPositionInMap(p, m) <==> 0 <= p.y < |m.coordinates| && 0 <= p.x < |m.coordinates[p.y]|)
  {
    p.x >= 0 && p.y >= 0 && p.x < Width(m) && p.y < Height(m)
  }

  /** The position (13, 2) lies outside a map twelve cells wide. */
  lemma OutsideExample(m: Map)
    requires |m.coordinates| == 12 && |m.coordinates[0]| == 12
    ensures !IsPositionInMap(Position(13, 2), m)
    ensures IsPositionInMap(Position(11, 11), m)
  {
  }

  // ---------------------------------------------------------------------
  // the antinodes of one pair of antennas
  // ---------------------------------------------------------------------

  /** The point k steps of (dx, dy) away from p. */
  function Offset(p: Position, dx: int, dy: int, k: int): Position
  {
    Position(p.x + dx * k, p.y + dy * k)
  }

  /** k >= 1 copies of a non-zero step stay inside an interval only if the
      interval is wider than k - 1. */
  lemma StepsInside(a: int, d: int, k: int, w: int)
    requires d != 0 && k >= 1
    requires 0 <= a + d < w && 0 <= a + d * k < w
    ensures k <= w
  {
    var e := k - 1;
    assert d * k == d * e + d;
    if d > 0 {
      MulAtLeast(d, e);
    } else {
      MulAtLeast(-d, e);
      assert (-d) * e == -(d * e);
    }
  }

  /** A factor of at least one does not make a natural number smaller. */
  lemma {:induction false} MulAtLeast(d: int, e: nat)
    requires d >= 1
    ensures d * e >= e
  {
    if e > 0 {
      MulAtLeast(d, e - 1);
      assert d * e == d * (e - 1) + d;
    }
  }

  /** A ray that has reached its k-th point on the map has k at most the
      width plus the height of the map. */
  lemma RayBound(m: Map, start: Position, dx: int, dy: int, k: int)
    requires |m.coordinates| > 0 && (dx, dy) != (0, 0) && k >= 1
    requires IsPositionInMap(Offset(start, dx, dy, 1), m)
    requires IsPositionInMap(Offset(start, dx, dy, k), m)
    ensures k <= Width(m) + Height(m)
  {
    if dx != 0 {
      StepsInside(start.x, dx, k, Width(m));
    } else {
      StepsInside(start.y, dy, k, Height(m));
    }
  }

  /** The points start + k * d, start + (k + 1) * d, ... as long as they
      lie on the map: one loop of `calculate_antinodes_for` from its k-th
      turn on. The step d is not zero, and once past the first point the
      first point lies on the map. */
  function Ray(m: Map, start: Position, dx: int, dy: int, k: int): seq<Position>
    requires |m.coordinates| > 0 && (dx, dy) != (0, 0) && k >= 1
    requires k == 1 || IsPositionInMap(Offset(start, dx, dy, 1), m)
    decreases Width(m) + Height(m) + 1 - k
  {
    var p := Offset(start, dx, dy, k);
    if IsPositionInMap(p, m) then
      RayBound(m, start, dx, dy, k);
      [p] + Ray(m, start, dx, dy, k + 1)
    else []
  }

  /** The ray lists the points k, k + 1, ... steps away, each on the map,
      and stops at the first that is not. */
  lemma {:induction false} RayMeaning(m: Map, start: Position, dx: int, dy: int, k: int)
    requires |m.coordinates| > 0 && (dx, dy) != (0, 0) && k >= 1
    requires k == 1 || IsPositionInMap(Offset(start, dx, dy, 1), m)
    ensures var r := Ray(m, start, dx, dy, k);
            && (forall n :: 0 <= n < |r| ==> r[n] == Offset(start, dx, dy, k + n) && IsPositionInMap(r[n], m))
            && !IsPositionInMap(Offset(start, dx, dy, k + |r|), m)
    decreases Width(m) + Height(m) + 1 - k
  {
    var p := Offset(start, dx, dy, k);
    if IsPositionInMap(p, m) {
      RayBound(m, start, dx, dy, k);
      RayMeaning(m, start, dx, dy, k + 1);
      var rest := Ray(m, start, dx, dy, k + 1);
      assert Ray(m, start, dx, dy, k) == [p] + rest;
      forall n | 1 <= n < 1 + |rest|
        ensures ([p] + rest)[n] == Offset(start, dx, dy, k + n)
      {
        assert ([p] + rest)[n] == rest[n - 1];
      }
    }
  }

  /** `calculate_antinodes_for`: the points beyond p2 in steps of
      d = p2 - p1 while on the map, then the points before p1 in steps of
      d while on the map, then p1 and p2. With p1 = p2 the step is zero
      and the first loop never ends on a map holding p2, so the two must
      differ. */
  function AntinodesFor(m: Map, p1: Position, p2: Position): seq<Position>
    requires |m.coordinates| > 0 && p1 != p2
  {
    var dx, dy := p2.x - p1.x, p2.y - p1.y;
    Ray(m, p2, dx, dy, 1) + Ray(m, p1, -dx, -dy, 1) + [p1, p2]
  }

  /** With a zero step every point of the ray is the start itself: on a
      map holding p the first loop would never stop. */
  lemma ZeroStepStays(m: Map, p: Position, k: int)
    requires |m.coordinates| > 0 && IsPositionInMap(p, m)
    ensures IsPositionInMap(Offset(p, 0, 0, k), m)
  {
  }

  /** The antinodes of the pair: the points p2 + k * d for k = 1, 2, ...
      each on the map, up to the first that is not, then likewise the
      points p1 + k * (-d), then p1 and p2. */
  lemma {:induction false} AntinodesForMeaning(m: Map, p1: Position, p2: Position)
    requires |m.coordinates| > 0 && p1 != p2
    ensures var dx, dy := p2.x - p1.x, p2.y - p1.y;
            var f, b := Ray(m, p2, dx, dy, 1), Ray(m, p1, -dx, -dy, 1);
            && AntinodesFor(m, p1, p2) == f + b + [p1, p2]
            && (forall n :: 0 <= n < |f| ==> f[n] == Offset(p2, dx, dy, n + 1) && IsPositionInMap(f[n], m))
            && !IsPositionInMap(Offset(p2, dx, dy, |f| + 1), m)
            && (forall n :: 0 <= n < |b| ==> b[n] == Offset(p1, -dx, -dy, n + 1) && IsPositionInMap(b[n], m))
            && !IsPositionInMap(Offset(p1, -dx, -dy, |b| + 1), m)
  {
    var dx, dy := p2.x - p1.x, p2.y - p1.y;
    RayMeaning(m, p2, dx, dy, 1);
    RayMeaning(m, p1, -dx, -dy, 1);
  }

  /** q lies on the line through p with direction (dx, dy). */
  predicate OnLine(p: Position, dx: int, dy: int, q: Position)
  {
    (q.x - p.x) * dy == (q.y - p.y) * dx
  }

  /** Every point a whole number of steps from p lies on the line. */
  lemma OffsetOnLine(p: Position, dx: int, dy: int, j: int)
    ensures OnLine(p, dx, dy, Offset(p, dx, dy, j))
  {
    assert (dx * j) * dy == (dy * j) * dx;
  }

  /** j steps on from one step away are j + 1 steps away. */
  lemma OffsetOfOffset(p: Position, dx: int, dy: int, j: int)
    ensures Offset(Offset(p, dx, dy, 1), dx, dy, j) == Offset(p, dx, dy, j + 1)
  {
    assert dx * (j + 1) == dx * j + dx;
    assert dy * (j + 1) == dy * j + dy;
  }

  /** j steps of -d are -j steps of d. */
  lemma OffsetBackwards(p: Position, dx: int, dy: int, j: int)
    ensures Offset(p, -dx, -dy, j) == Offset(p, dx, dy, -j)
  {
    assert (-dx) * j == dx * (-j);
    assert (-dy) * j == dy * (-j);
  }

  /** Every antinode of the pair lies on the line through p1 and p2. */
  lemma {:induction false} AntinodesOnLine(m: Map, p1: Position, p2: Position)
    requires |m.coordinates| > 0 && p1 != p2
    ensures forall q :: q in AntinodesFor(m, p1, p2) ==> OnLine(p1, p2.x - p1.x, p2.y - p1.y, q)
  {
    var dx, dy := p2.x - p1.x, p2.y - p1.y;
    var f, b := Ray(m, p2, dx, dy, 1), Ray(m, p1, -dx, -dy, 1);
    AntinodesForMeaning(m, p1, p2);
    assert p2 == Offset(p1, dx, dy, 1);
    forall n | 0 <= n < |f|
      ensures OnLine(p1, dx, dy, f[n])
    {
      OffsetOfOffset(p1, dx, dy, n + 1);
      OffsetOnLine(p1, dx, dy, n + 2);
    }
    forall n | 0 <= n < |b|
      ensures OnLine(p1, dx, dy, b[n])
    {
      OffsetBackwards(p1, dx, dy, n + 1);
      OffsetOnLine(p1, dx, dy, -(n + 1));
    }
    OffsetOnLine(p1, dx, dy, 0);
    OffsetOnLine(p1, dx, dy, 1);
  }

  /** The first example pair of the twelve by twelve map. */
  lemma AntinodesForExample(m: Map)
    requires |m.coordinates| == 12 && |m.coordinates[0]| == 12
    ensures AntinodesFor(m, Position(4, 3), Position(5, 5))
            == [Position(6, 7), Position(7, 9), Position(8, 11), Position(3, 1), Position(4, 3), Position(5, 5)]
  {
    var p1, p2 := Position(4, 3), Position(5, 5);
    assert Ray(m, p2, 1, 2, 4) == [];
    assert Ray(m, p2, 1, 2, 3) == [Position(8, 11)];
    assert Ray(m, p2, 1, 2, 2) == [Position(7, 9), Position(8, 11)];
    assert Ray(m, p1, -1, -2, 2) == [];
    assert Ray(m, p1, -1, -2, 1) == [Position(3, 1)];
  }

  /** The second example pair of the twelve by twelve map. */
  lemma AntinodesForExample2(m: Map)
    requires |m.coordinates| == 12 && |m.coordinates[0]| == 12
    ensures AntinodesFor(m, Position(4, 3), Position(8, 4))
            == [Position(0, 2), Position(4, 3), Position(8, 4)]
  {
    var p1, p2 := Position(4, 3), Position(8, 4);
    assert Ray(m, p2, 4, 1, 1) == [];
    assert Ray(m, p1, -4, -1, 2) == [];
    assert Ray(m, p1, -4, -1, 1) == [Position(0, 2)];
  }

  /** One loop of `calculate_antinodes_for`: the points start + k * d for
      k = 1, 2, ... pushed while they lie on the map. */
  method PushRay(m: Map, start: Position, dx: int, dy: int, antinodes: seq<Position>)
    returns (antinodes': seq<Position>)
    requires |m.coordinates| > 0 && (dx, dy) != (0, 0)
    ensures antinodes' == antinodes + Ray(m, start, dx, dy, 1)
  {
    antinodes' := antinodes;
    var mapEdgeReached := false;
    var counter := 1;
    while !mapEdgeReached
      invariant 1 <= counter <= Width(m) + Height(m) + 1
      invariant counter == 1 || IsPositionInMap(Offset(start, dx, dy, 1), m)
      invariant !mapEdgeReached ==> antinodes' + Ray(m, start, dx, dy, counter) == antinodes + Ray(m, start, dx, dy, 1)
      invariant mapEdgeReached ==> antinodes' == antinodes + Ray(m, start, dx, dy, 1)
      decreases !mapEdgeReached, Width(m) + Height(m) + 1 - counter
    {
      var position := Position(start.x + dx * counter, start.y + dy * counter);
      if IsPositionInMap(position, m) {
        RayBound(m, start, dx, dy, counter);
        assert Ray(m, start, dx, dy, counter) == [position] + Ray(m, start, dx, dy, counter + 1);
        antinodes' := antinodes' + [position];
        counter := counter + 1;
      } else {
        mapEdgeReached := true;
      }
    }
  }

  /** `calculate_antinodes_for` */
  method CalculateAntinodesFor(p1: Position, p2: Position, m: Map) returns (antinodes: seq<Position>)
    requires |m.coordinates| > 0 && p1 != p2
    ensures antinodes == AntinodesFor(m, p1, p2)
  {
    var dx := p2.x - p1.x;
    var dy := p2.y - p1.y;
    antinodes := PushRay(m, p2, dx, dy, []);
    antinodes := PushRay(m, p1, -dx, -dy, antinodes);
    antinodes := antinodes + [p1];
    antinodes := antinodes + [p2];
  }

  // ---------------------------------------------------------------------
  // the antennas of the map
  // ---------------------------------------------------------------------

  /** The antennas met so far: `known_antenna_types`, the frequencies in
      the order first met, and `antenna_hashmap`, the positions of each
      frequency in the order met. */
  datatype Antennas = Antennas(known: seq<char>, table: map<char, seq<Position>>)

  /** The frequencies with a list of positions are the known ones. */
  predicate Consistent(st: Antennas)
  {
    forall c :: c in st.table <==> c in st.known
  }

  /** The scan's step for an antenna of frequency c at p: a frequency met
      for the first time is appended to the known ones and starts a list
      of its own; a known one gets p appended to its list. */
  function Record(st: Antennas, c: char, p: Position): (r: Antennas)
    requires Consistent(st)
    ensures Consistent(r)
    ensures c in r.known && r.table[c] == (if c in st.known then st.table[c] else []) + [p]
    ensures forall e :: e in st.table && e != c ==> e in r.table && r.table[e] == st.table[e]
  {
    if c !in st.known then Antennas(st.known + [c], st.table[c := [p]])
    else Antennas(st.known, st.table[c := st.table[c] + [p]])
  }

  /** a comes before b when the map is read column by column. */
  predicate ColumnMajorBefore(a: Position, b: Position)
  {
    a.x < b.x || (a.x == b.x && a.y < b.y)
  }

  /** The scan of `calculate_antinode_amount` from column i, row j on. It
      reads `coordinates[j][i]` with j running over the length of row i,
      so it panics (None) where row j is missing or too short for column
      i; on a square map it reads every cell, column by column. */
  function ScanFrom(grid: seq<seq<char>>, i: nat, j: nat, st: Antennas): Option<Antennas>
    requires i <= |grid| && (i < |grid| ==> j <= |grid[i]|) && Consistent(st)
    decreases |grid| - i, if i < |grid| then |grid[i]| - j else 0
  {
    if i == |grid| then Some(st)
    else if j == |grid[i]| then ScanFrom(grid, i + 1, 0, st)
    else if j >= |grid| || i >= |grid[j]| then None
    else if grid[j][i] != '.' then ScanFrom(grid, i, j + 1, Record(st, grid[j][i], Position(i, j)))
    else ScanFrom(grid, i, j + 1, st)
  }

  /** The antennas of the whole map; None where the scan panics. */
  function Scan(grid: seq<seq<char>>): Option<Antennas>
  {
    ScanFrom(grid, 0, 0, Antennas([], map[]))
  }

  /** The cell at p exists and holds c. */
  predicate Holds(grid: seq<seq<char>>, p: Position, c: char)
  {
    0 <= p.y < |grid| && 0 <= p.x < |grid[p.y]| && grid[p.y][p.x] == c
  }

  /** What the scan keeps true of the antennas met before column i, row
      j: every known frequency has a list and '.' is none of them, no
      frequency is known twice, every listed position holds its frequency
      and comes before (i, j), and each list is in column-major order. */
  predicate Recorded(grid: seq<seq<char>>, st: Antennas, i: int, j: int)
  {
    && Consistent(st)
    && NoDuplicates(st.known)
    && '.' !in st.known
    && (forall c, k :: c in st.table && 0 <= k < |st.table[c]| ==>
          Holds(grid, st.table[c][k], c) && ColumnMajorBefore(st.table[c][k], Position(i, j)))
    && (forall c, k, l :: c in st.table && 0 <= k < l < |st.table[c]| ==>
          ColumnMajorBefore(st.table[c][k], st.table[c][l]))
  }

  /** Reading one cell keeps the scan's invariant. */
  lemma RecordedStep(grid: seq<seq<char>>, st: Antennas, i: nat, j: nat)
    requires j < |grid| && i < |grid[j]| && Recorded(grid, st, i, j)
    ensures grid[j][i] != '.' ==> Recorded(grid, Record(st, grid[j][i], Position(i, j)), i, j + 1)
    ensures grid[j][i] == '.' ==> Recorded(grid, st, i, j + 1)
  {
    var c, p := grid[j][i], Position(i, j);
    if c != '.' {
      var r := Record(st, c, p);
      assert Holds(grid, p, c);
      if c !in st.known {
        assert r.known == st.known + [c];
      }
    }
  }

  /** The scan keeps its invariant to the end. */
  lemma {:induction false} ScanFromRecorded(grid: seq<seq<char>>, i: nat, j: nat, st: Antennas)
    requires i <= |grid| && (i < |grid| ==> j <= |grid[i]|) && (i == |grid| ==> j == 0)
    requires Recorded(grid, st, i, j)
    ensures ScanFrom(grid, i, j, st).Some? ==> Recorded(grid, ScanFrom(grid, i, j, st).value, |grid|, 0)
    decreases |grid| - i, if i < |grid| then |grid[i]| - j else 0
  {
    if i == |grid| {
    } else if j == |grid[i]| {
      ScanFromRecorded(grid, i + 1, 0, st);
    } else if j >= |grid| || i >= |grid[j]| {
    } else {
      RecordedStep(grid, st, i, j);
      if grid[j][i] != '.' {
        ScanFromRecorded(grid, i, j + 1, Record(st, grid[j][i], Position(i, j)));
      } else {
        ScanFromRecorded(grid, i, j + 1, st);
      }
    }
  }

  /** The antennas the scan finds: '.' is never a frequency, no frequency
      is known twice, every known one has a list of positions, each holding
      that frequency, in column-major order and so without repeats. */
  lemma ScanRecorded(grid: seq<seq<char>>)
    ensures Scan(grid).Some? ==> Recorded(grid, Scan(grid).value, |grid|, 0)
  {
    ScanFromRecorded(grid, 0, 0, Antennas([], map[]));
  }

  /** Every position listed for a known frequency is distinct from the
      others in its list. */
  predicate DistinctLists(st: Antennas)
  {
    forall c :: c in st.known ==> c in st.table && NoDuplicates(st.table[c])
  }

  lemma RecordedLists(grid: seq<seq<char>>, st: Antennas, i: int, j: int)
    requires Recorded(grid, st, i, j)
    ensures DistinctLists(st)
  {
    forall c | c in st.known
      ensures NoDuplicates(st.table[c])
    {
      forall k, l | 0 <= k < l < |st.table[c]|
        ensures st.table[c][k] != st.table[c][l]
      {
        assert ColumnMajorBefore(st.table[c][k], st.table[c][l]);
      }
    }
  }

  /** The cells holding an antenna before column i, row j of a square map
      are all listed. */
  predicate Complete(grid: seq<seq<char>>, st: Antennas, i: int, j: int)
  {
    forall x, y ::
      (0 <= y < |grid| && 0 <= x < |grid[y]| && ColumnMajorBefore(Position(x, y), Position(i, j)) && grid[y][x] != '.')
      ==> grid[y][x] in st.table && Position(x, y) in st.table[grid[y][x]]
  }

  /** A square map: every row as long as the number of rows. */
  predicate Square(grid: seq<seq<char>>)
  {
    forall y :: 0 <= y < |grid| ==> |grid[y]| == |grid|
  }

  /** Reading one cell of a square map keeps every antenna met listed. */
  lemma CompleteStep(grid: seq<seq<char>>, st: Antennas, i: nat, j: nat)
    requires Square(grid) && j < |grid| && i < |grid| && Consistent(st) && Complete(grid, st, i, j)
    ensures grid[j][i] != '.' ==> Complete(grid, Record(st, grid[j][i], Position(i, j)), i, j + 1)
    ensures grid[j][i] == '.' ==> Complete(grid, st, i, j + 1)
  {
  }

  /** On a square map the scan never panics and lists every antenna. */
  lemma {:induction false} ScanFromComplete(grid: seq<seq<char>>, i: nat, j: nat, st: Antennas)
    requires Square(grid) && i <= |grid| && (i < |grid| ==> j <= |grid|) && Consistent(st) && Complete(grid, st, i, j)
    ensures ScanFrom(grid, i, j, st).Some? && Complete(grid, ScanFrom(grid, i, j, st).value, |grid|, 0)
    decreases |grid| - i, |grid| - j
  {
    if i == |grid| {
    } else if j == |grid| {
      assert Complete(grid, st, i + 1, 0);
      ScanFromComplete(grid, i + 1, 0, st);
    } else {
      CompleteStep(grid, st, i, j);
      if grid[j][i] != '.' {
        ScanFromComplete(grid, i, j + 1, Record(st, grid[j][i], Position(i, j)));
      } else {
        ScanFromComplete(grid, i, j + 1, st);
      }
    }
  }

  /** On a square map the scan lists exactly the cells holding an antenna,
      under their frequency. */
  lemma ScanComplete(grid: seq<seq<char>>)
    requires Square(grid)
    ensures Scan(grid).Some? && Recorded(grid, Scan(grid).value, |grid|, 0)
    ensures var st := Scan(grid).value;
            forall x, y :: 0 <= y < |grid| && 0 <= x < |grid| && grid[y][x] != '.' ==>
              grid[y][x] in st.known && Position(x, y) in st.table[grid[y][x]]
  {
    ScanFromComplete(grid, 0, 0, Antennas([], map[]));
    ScanRecorded(grid);
  }

  /** The scan loops of `calculate_antinode_amount`. */
  method ScanAntennas(grid: seq<seq<char>>) returns (r: Option<Antennas>)
    ensures r == Scan(grid)
  {
    var knownAntennaTypes: seq<char> := [];
    var antennaHashmap: map<char, seq<Position>> := map[];
    for i := 0 to |grid|
      invariant Consistent(Antennas(knownAntennaTypes, antennaHashmap))
      invariant ScanFrom(grid, i, 0, Antennas(knownAntennaTypes, antennaHashmap)) == Scan(grid)
    {
      for j := 0 to |grid[i]|
        invariant Consistent(Antennas(knownAntennaTypes, antennaHashmap))
        invariant ScanFrom(grid, i, j, Antennas(knownAntennaTypes, antennaHashmap)) == Scan(grid)
      {
        if j >= |grid| || i >= |grid[j]| {
          return None;
        }
        var currentElement := grid[j][i];
        if currentElement != '.' {
          var positionVector: seq<Position> := [];
          if currentElement !in knownAntennaTypes {
            knownAntennaTypes := knownAntennaTypes + [currentElement];
          } else {
            positionVector := antennaHashmap[currentElement];
          }
          positionVector := positionVector + [Position(i, j)];
          antennaHashmap := antennaHashmap[currentElement := positionVector];
        }
      }
    }
    return Some(Antennas(knownAntennaTypes, antennaHashmap));
  }

  // ---------------------------------------------------------------------
  // the antinodes of all pairs
  // ---------------------------------------------------------------------

  /** `calculate_antinodes_for` as a value: what the loops over the pairs
      append for two antennas. They only pair distinct antennas, so the
      empty list for equal ones is never used. */
  function PairAntinodes(m: Map): (Position, Position) -> seq<Position>
    requires |m.coordinates| > 0
  {
    (p1, p2) => if p1 != p2 then AntinodesFor(m, p1, p2) else []
  }

  /** For two distinct antennas it is `calculate_antinodes_for`. */
  lemma PairAntinodesOf(m: Map)
    requires |m.coordinates| > 0
    ensures Pairing(m, PairAntinodes(m))
  {
  }

  /** The antinodes that the pair (i, j) contributes to row i: those of
      (ps[i], ps[j]) when i < j, nothing otherwise. */
  function PairsWith(pair: (Position, Position) -> seq<Position>, ps: seq<Position>, i: nat): nat -> seq<Position>
  {
    (j: nat) => if i < j < |ps| then pair(ps[i], ps[j]) else []
  }

  /** The antinodes of the pairs (i, i + 1), ..., (i, n - 1) of ps, in
      that order. */
  function RowChoices(pair: (Position, Position) -> seq<Position>, ps: seq<Position>, i: nat, n: nat): seq<Position>
  {
    Concat(PairsWith(pair, ps, i), n)
  }

  /** Row i of the pairs, the whole row. */
  function RowsOf(pair: (Position, Position) -> seq<Position>, ps: seq<Position>): nat -> seq<Position>
  {
    (i: nat) => RowChoices(pair, ps, i, |ps|)
  }

  /** `antinode_choices`: the antinodes of every pair (i, j) with i < j
      among the first n rows of pairs, row after row. */
  function Choices(pair: (Position, Position) -> seq<Position>, ps: seq<Position>, n: nat): seq<Position>
  {
    Concat(RowsOf(pair, ps), n)
  }

  /** A row starts empty: no pair (i, j) with j <= i. */
  lemma RowChoicesStart(pair: (Position, Position) -> seq<Position>, ps: seq<Position>, i: nat)
    ensures RowChoices(pair, ps, i, i + 1) == []
  {
    ConcatOfEmpty(PairsWith(pair, ps, i), i + 1);
  }

  /** One more pair of the row: after the row so far, its antinodes. */
  lemma RowChoicesStep(pair: (Position, Position) -> seq<Position>, ps: seq<Position>, i: nat, j: nat,
                       before: seq<Position>, choices: seq<Position>, current: seq<Position>)
    requires i < j < |ps| && choices == before + RowChoices(pair, ps, i, j) && current == pair(ps[i], ps[j])
    ensures choices + current == before + RowChoices(pair, ps, i, j + 1)
  {
    assert RowChoices(pair, ps, i, j + 1) == RowChoices(pair, ps, i, j) + current;
  }

  /** One more row of pairs: after the rows so far, the whole row. */
  lemma ChoicesStep(pair: (Position, Position) -> seq<Position>, ps: seq<Position>, i: nat, choices: seq<Position>)
    requires choices == Choices(pair, ps, i)
    ensures choices + RowChoices(pair, ps, i, |ps|) == Choices(pair, ps, i + 1)
  {
  }

  /** The choices hold the antinodes of the pairs a < b with a among the
      first n, and nothing else. */
  lemma ChoicesMeaning(pair: (Position, Position) -> seq<Position>, ps: seq<Position>, n: nat, q: Position)
    requires n <= |ps|
    ensures q in Choices(pair, ps, n) <==> exists a, b :: 0 <= a < n && a < b < |ps| && q in pair(ps[a], ps[b])
  {
    if q in Choices(pair, ps, n) {
      var a := ConcatFrom(RowsOf(pair, ps), n, q);
      var b := ConcatFrom(PairsWith(pair, ps, a), |ps|, q);
      assert a < b < |ps| && q in pair(ps[a], ps[b]);
    }
    if exists a, b :: 0 <= a < n && a < b < |ps| && q in pair(ps[a], ps[b]) {
      var a, b :| 0 <= a < n && a < b < |ps| && q in pair(ps[a], ps[b]);
      ConcatHas(PairsWith(pair, ps, a), |ps|, b, q);
      ConcatHas(RowsOf(pair, ps), n, a, q);
    }
  }

  /** `antinodes` after the loop over `antinode_choices`: each choice
      appended unless it is already there. */
  function AddNew<T(==)>(antinodes: seq<T>, choices: seq<T>): seq<T>
  {
    if |choices| == 0 then antinodes
    else
      var kept := AddNew(antinodes, choices[..|choices| - 1]);
      var q := choices[|choices| - 1];
      if q in kept then kept else kept + [q]
  }

  /** Adding keeps the list free of repeats, and it then holds what it
      held and every choice. */
  lemma {:induction false} AddNewMeaning<T>(antinodes: seq<T>, choices: seq<T>)
    ensures NoDuplicates(antinodes) ==> NoDuplicates(AddNew(antinodes, choices))
    ensures forall q :: q in AddNew(antinodes, choices) <==> q in antinodes || q in choices
  {
    if |choices| > 0 {
      var init := choices[..|choices| - 1];
      AddNewMeaning(antinodes, init);
      assert choices == init + [choices[|choices| - 1]];
    }
  }

  /** The lists f(0), ..., f(n - 1) added one after the other to an empty
      list. */
  function Gather<T(==)>(f: nat -> seq<T>, n: nat): seq<T>
  {
    if n == 0 then [] else AddNew(Gather(f, n - 1), f(n - 1))
  }

  /** The gathered list is free of repeats. */
  lemma {:induction false} GatherDistinct<T>(f: nat -> seq<T>, n: nat)
    ensures NoDuplicates(Gather(f, n))
  {
    if n > 0 {
      GatherDistinct(f, n - 1);
      AddNewMeaning(Gather(f, n - 1), f(n - 1));
    }
  }

  /** Everything in one of the lists is gathered. */
  lemma {:induction false} GatherHas<T>(f: nat -> seq<T>, n: nat, k: nat, q: T)
    requires k < n && q in f(k)
    ensures q in Gather(f, n)
  {
    AddNewMeaning(Gather(f, n - 1), f(n - 1));
    if k < n - 1 {
      GatherHas(f, n - 1, k, q);
    }
  }

  /** Everything gathered is in one of the lists. */
  lemma {:induction false} GatherFrom<T>(f: nat -> seq<T>, n: nat, q: T) returns (k: nat)
    requires q in Gather(f, n)
    ensures k < n && q in f(k)
  {
    AddNewMeaning(Gather(f, n - 1), f(n - 1));
    if q in f(n - 1) {
      k := n - 1;
    } else {
      k := GatherFrom(f, n - 1, q);
    }
  }

  /** The choices of frequency t, the t-th one found. */
  function FrequencyChoices(pair: (Position, Position) -> seq<Position>, st: Antennas): nat -> seq<Position>
  {
    (t: nat) => if t < |st.known| && st.known[t] in st.table
         then Choices(pair, st.table[st.known[t]], |st.table[st.known[t]]|) else []
  }

  /** `antinodes` after the first n known frequencies. */
  function Collected(pair: (Position, Position) -> seq<Position>, st: Antennas, n: nat): seq<Position>
  {
    Gather(FrequencyChoices(pair, st), n)
  }

  /** One more frequency: its choices added to the antinodes so far. */
  lemma {:induction false} CollectedStep(pair: (Position, Position) -> seq<Position>, st: Antennas, t: nat, antinodes: seq<Position>)
    requires Consistent(st) && t < |st.known| && antinodes == Collected(pair, st, t)
    ensures AddNew(antinodes, Choices(pair, st.table[st.known[t]], |st.table[st.known[t]]|)) == Collected(pair, st, t + 1)
  {
  }

  /** q is an antinode of two antennas, in list order, of one of the first
      n known frequencies. */
  predicate AntinodeOf(pair: (Position, Position) -> seq<Position>, st: Antennas, n: nat, q: Position)
    requires Consistent(st) && n <= |st.known|
  {
    exists t, a, b :: 0 <= t < n && 0 <= a < b < |st.table[st.known[t]]|
                      && q in pair(st.table[st.known[t]][a], st.table[st.known[t]][b])
  }

  /** The collected antinodes are free of repeats and are exactly the
      antinodes of the pairs of each frequency. */
  lemma CollectedMeaning(pair: (Position, Position) -> seq<Position>, st: Antennas, n: nat)
    requires Consistent(st) && n <= |st.known|
    ensures NoDuplicates(Collected(pair, st, n))
    ensures forall q :: q in Collected(pair, st, n) <==> AntinodeOf(pair, st, n, q)
  {
    GatherDistinct(FrequencyChoices(pair, st), n);
    forall q
      ensures q in Collected(pair, st, n) <==> AntinodeOf(pair, st, n, q)
    {
      if q in Collected(pair, st, n) {
        var t := GatherFrom(FrequencyChoices(pair, st), n, q);
        var ps := st.table[st.known[t]];
        ChoicesMeaning(pair, ps, |ps|, q);
      }
      if AntinodeOf(pair, st, n, q) {
        var t, a, b :| 0 <= t < n && 0 <= a < b < |st.table[st.known[t]]|
                       && q in pair(st.table[st.known[t]][a], st.table[st.known[t]][b]);
        var ps := st.table[st.known[t]];
        ChoicesMeaning(pair, ps, |ps|, q);
        GatherHas(FrequencyChoices(pair, st), n, t, q);
      }
    }
  }

  /** What `calculate_antinode_amount` returns: the number of distinct
      antinodes; None where it panics (an empty map, whose width is read,
      or a scan that runs off a row). */
  function AntinodeAmount(input: string): Option<nat>
  {
    var m := ReadMap(input);
    if |m.coordinates| == 0 then None
    else match Scan(m.coordinates)
      case None => None
      case Some(st) =>
        ScanRecorded(m.coordinates);
        Some(|Collected(PairAntinodes(m), st, |st.known|)|)
  }

  /** The answer counts each antinode of two antennas of one frequency
      once: it is the size of the set of those antinodes. */
  lemma AntinodeAmountMeaning(input: string)
    ensures var m := ReadMap(input);
            AntinodeAmount(input).Some? <==> |m.coordinates| > 0 && Scan(m.coordinates).Some?
    ensures var m := ReadMap(input);
            AntinodeAmount(input).Some? ==>
              var st := Scan(m.coordinates).value;
              && Recorded(m.coordinates, st, |m.coordinates|, 0)
              && AntinodeAmount(input).value == |set q | q in Collected(PairAntinodes(m), st, |st.known|)|
              && forall q :: q in Collected(PairAntinodes(m), st, |st.known|) <==> AntinodeOf(PairAntinodes(m), st, |st.known|, q)
  {
    var m := ReadMap(input);
    if |m.coordinates| > 0 && Scan(m.coordinates).Some? {
      var st := Scan(m.coordinates).value;
      ScanRecorded(m.coordinates);
      CollectedMeaning(PairAntinodes(m), st, |st.known|);
      DistinctCard(Collected(PairAntinodes(m), st, |st.known|));
    }
  }

  /** `pair` is `calculate_antinodes_for` on distinct antennas. */
  ghost predicate Pairing(m: Map, pair: (Position, Position) -> seq<Position>)
    requires |m.coordinates| > 0
  {
    forall p1, p2 {:trigger AntinodesFor(m, p1, p2)} :: p1 != p2 ==> pair(p1, p2) == AntinodesFor(m, p1, p2)
  }

  /** The loops over the pairs of `calculate_antinode_amount`. */
  method PairChoices(m: Map, pair: (Position, Position) -> seq<Position>, positions: seq<Position>)
    returns (antinodeChoices: seq<Position>)
    requires |m.coordinates| > 0 && NoDuplicates(positions)
    requires Pairing(m, pair)
    ensures antinodeChoices == Choices(pair, positions, |positions|)
  {
    antinodeChoices := [];
    for positionI := 0 to |positions|
      invariant antinodeChoices == Choices(pair, positions, positionI)
    {
      ChoicesStep(pair, positions, positionI, antinodeChoices);
      antinodeChoices := PairRow(m, pair, positions, positionI, antinodeChoices);
    }
  }

  /** The inner loop: the antinodes of the pairs (i, j), j > i, appended. */
  method PairRow(m: Map, pair: (Position, Position) -> seq<Position>, positions: seq<Position>, positionI: nat,
                 antinodeChoices: seq<Position>)
    returns (antinodeChoices': seq<Position>)
    requires |m.coordinates| > 0 && NoDuplicates(positions) && positionI < |positions|
    requires Pairing(m, pair)
    ensures antinodeChoices' == antinodeChoices + RowChoices(pair, positions, positionI, |positions|)
  {
    antinodeChoices' := antinodeChoices;
    RowChoicesStart(pair, positions, positionI);
    for positionJ := positionI + 1 to |positions|
      invariant antinodeChoices' == antinodeChoices + RowChoices(pair, positions, positionI, positionJ)
    {
      var currentAntinodes := CalculateAntinodesFor(positions[positionI], positions[positionJ], m);
      RowChoicesStep(pair, positions, positionI, positionJ, antinodeChoices, antinodeChoices', currentAntinodes);
      antinodeChoices' := antinodeChoices' + currentAntinodes;
    }
  }

  /** The loop over `antinode_choices`: a choice is appended unless it is
      already among the antinodes. */
  method AddNewPositions(antinodes: seq<Position>, antinodeChoices: seq<Position>) returns (antinodes': seq<Position>)
    ensures antinodes' == AddNew(antinodes, antinodeChoices)
  {
    antinodes' := antinodes;
    for k := 0 to |antinodeChoices|
      invariant antinodes' == AddNew(antinodes, antinodeChoices[..k])
    {
      var position := antinodeChoices[k];
      assert antinodeChoices[..k + 1][..k] == antinodeChoices[..k];
      if position !in antinodes' {
        antinodes' := antinodes' + [position];
      }
    }
    assert antinodeChoices[..|antinodeChoices|] == antinodeChoices;
  }

  /** `calculate_antinode_amount`: None where it panics. */
  method CalculateAntinodeAmount(input: string) returns (r: Option<nat>)
    ensures r == AntinodeAmount(input)
  {
    var m := ReadMap(input);
    if |m.coordinates| == 0 {
      return None;
    }
    var scanned := ScanAntennas(m.coordinates);
    if scanned.None? {
      return None;
    }
    var st := scanned.value;
    ScanRecorded(m.coordinates);
    RecordedLists(m.coordinates, st, |m.coordinates|, 0);
    PairAntinodesOf(m);
    var antinodes: seq<Position> := [];
    for t := 0 to |st.known|
      invariant antinodes == Collected(PairAntinodes(m), st, t)
    {
      var positions := st.table[st.known[t]];
      var antinodeChoices := PairChoices(m, PairAntinodes(m), positions);
      CollectedStep(PairAntinodes(m), st, t, antinodes);
      antinodes := AddNewPositions(antinodes, antinodeChoices);
    }
    return Some(|antinodes|);
  }
}
