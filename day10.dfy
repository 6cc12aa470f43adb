/** Day 10: a topographic map of digit heights. A hiking trail starts at
    height 0 and climbs exactly one unit per step to a neighbouring cell
    (north, east, south or west) until it reaches height 9. A trailhead's
    score is the number of trails that start there, and the answer is the
    sum of the scores. */
module Day10 {
  import opened Text

  /** A cell position: x is the column, y the row (`i32` in the source). */
  datatype Position = Position(x: int, y: int)

  /** The map, row by row, as heights. */
  datatype Map = Map(coordinates: seq<seq<nat>>)

  /** A trailhead and the number of trails found from it. */
  datatype TrailheadScore = TrailheadScore(trailhead: Position, score: nat)

  /** The accumulator that `explore_trail` threads through its recursion:
      the summits reached so far, once per trail, and the running score. */
  datatype SummitsAndScore = SummitsAndScore(summits: seq<Position>, score: nat)

  // ---------------------------------------------------------------------
  // reading the map
  // ---------------------------------------------------------------------

  /** `read_line`: each character as its decimal digit; None where a
      character is not a digit (the source panics there). */
  function ReadLine(line: string): (r: Option<seq<nat>>)
    ensures r.Some? <==> AllDigits(line)
    ensures r.Some? ==> |r.value| == |line|
    ensures r.Some? ==> forall i :: 0 <= i < |line| ==> r.value[i] == DigitValue(line[i]) < 10
  {
    if AllDigits(line) then Some(seq(|line|, i requires 0 <= i < |line| => DigitValue(line[i]))) else None
  }

  /** A row of heights written out as digits. */
  function RowText(row: seq<nat>): (line: string)
    requires forall i :: 0 <= i < |row| ==> row[i] < 10
    ensures |line| == |row| && PlainLine(line)
  {
    seq(|row|, i requires 0 <= i < |row| => DigitChar(row[i]))
  }

  /** Reading back a row written out as digits gives the row. */
  lemma ReadLineOfRowText(row: seq<nat>)
    requires forall i :: 0 <= i < |row| ==> row[i] < 10
    ensures ReadLine(RowText(row)) == Some(row)
  {
    var line := RowText(row);
    assert AllDigits(line);
    assert ReadLine(line).value == row;
  }

  /** `read_all_lines` (and `read_map`, which only calls it): one row of
      heights per input line; None when some line holds a non-digit. */
  method ReadAllLines(lines: string) returns (r: Option<seq<seq<nat>>>)
    ensures r.Some? <==> forall i :: 0 <= i < |Lines(lines)| ==> AllDigits(Lines(lines)[i])
    ensures r.Some? ==> |r.value| == |Lines(lines)|
    ensures r.Some? ==> forall i :: 0 <= i < |r.value| ==> Some(r.value[i]) == ReadLine(Lines(lines)[i])
  {
    var ls := Lines(lines);
    var linesVec: seq<seq<nat>> := [];
    for i := 0 to |ls|
      invariant |linesVec| == i
      invariant forall k :: 0 <= k < i ==> AllDigits(ls[k]) && Some(linesVec[k]) == ReadLine(ls[k])
    {
      var row := ReadLine(ls[i]);
      if row.None? {
        return None;
      }
      linesVec := linesVec + [row.value];
    }
    return Some(linesVec);
  }

  /** Rows of heights written out one per line are read back as the same
      rows. */
  lemma ReadRowsBack(rows: seq<seq<nat>>)
    requires forall j, i :: 0 <= j < |rows| && 0 <= i < |rows[j]| ==> rows[j][i] < 10
    ensures var text := Join(seq(|rows|, j requires 0 <= j < |rows| => RowText(rows[j])) + [""], '\n');
            |Lines(text)| == |rows| && forall j :: 0 <= j < |rows| ==> ReadLine(Lines(text)[j]) == Some(rows[j])
  {
    var texts := seq(|rows|, j requires 0 <= j < |rows| => RowText(rows[j]));
    LinesOfNewlineTerminated(texts);
    forall j | 0 <= j < |rows|
      ensures ReadLine(texts[j]) == Some(rows[j])
    {
      ReadLineOfRowText(rows[j]);
    }
  }

  // ---------------------------------------------------------------------
  // the map
  // ---------------------------------------------------------------------

  /** What the source relies on without checking it: a first row to take
      the width from, every row at least that wide, and heights that are
      digits (as `read_map` makes them). */
  predicate WellFormed(m: Map)
  {
    && |m.coordinates| > 0
    && (forall j :: 0 <= j < |m.coordinates| ==> |m.coordinates[j]| >= |m.coordinates[0]|)
    && (forall j, i :: 0 <= j < |m.coordinates| && 0 <= i < |m.coordinates[j]| ==> m.coordinates[j][i] < 10)
  }

  /** A map the source can work on. */
  type Topography = m: Map | WellFormed(m) witness Map([[0]])

  /** `get_width`: the length of the first row. */
  function Width(m: Topography): nat
  {
    |m.coordinates[0]|
  }

  /** `get_height`: the number of rows. */
  function Height(m: Topography): nat
  {
    |m.coordinates|
  }

  /** `is_position_in_map`: both coordinates are non-negative, x is below
      the width and y below the height. Every row is at least as wide as the
      first, so a position in the map names a cell. */
  predicate IsPositionInMap(p: Position, m: Topography)
    ensures IsPositionInMap(p, m) ==> 0 <= p.y < |m.coordinates| && 0 <= p.x < |m.coordinates[p.y]|
  {
    p.x >= 0 && p.y >= 0 && p.x < Width(m) && p.y < Height(m)
  }

  /** `get_int_at_position`: the height at row y, column x. */
  function GetIntAtPosition(m: Topography, p: Position): (h: nat)
    requires IsPositionInMap(p, m)
    ensures h < 10
  {
    m.coordinates[p.y][p.x]
  }

  // ---------------------------------------------------------------------
  // climbing one step
  // ---------------------------------------------------------------------

  /** q is one of the four neighbours of p: north, east, south or west. */
  predicate Adjacent(p: Position, q: Position)
  {
    || (q.x == p.x && (q.y == p.y - 1 || q.y == p.y + 1))
    || (q.y == p.y && (q.x == p.x + 1 || q.x == p.x - 1))
  }

  /** The place of a neighbour in the order the source tries them: north
      0, east 1, south 2, west 3. */
  function Rank(p: Position, q: Position): (k: nat)
    ensures k < 4
  {
    if q.y < p.y then 0 else if q.x > p.x then 1 else if q.y > p.y then 2 else 3
  }

  /** q lies in the map one unit higher than p. */
  predicate Climbs(m: Topography, p: Position, q: Position)
    requires IsPositionInMap(p, m)
  {
    IsPositionInMap(q, m) && GetIntAtPosition(m, q) == GetIntAtPosition(m, p) + 1
  }

  /** The climbing neighbours of p among a and b, in that order. */
  function ClimbingOf(m: Topography, p: Position, a: Position, b: Position): (r: seq<Position>)
    requires IsPositionInMap(p, m)
    ensures forall q :: q in r <==> (q == a || q == b) && Climbs(m, p, q)
    ensures a != b ==> NoDuplicates(r)
    ensures forall i :: 0 <= i < |r| ==> r[i] == a || r[i] == b
    ensures |r| == 2 ==> r == [a, b]
  {
    (if Climbs(m, p, a) then [a] else []) + (if Climbs(m, p, b) then [b] else [])
  }

  /** `get_ascending_coordinates_around`: the neighbours one unit higher,
      tried in the order north, east, south, west. */
  function AscendingAround(p: Position, m: Topography): (r: seq<Position>)
    requires IsPositionInMap(p, m)
    ensures forall q :: q in r <==> Adjacent(p, q) && Climbs(m, p, q)
  {
    var north := Position(p.x, p.y - 1);
    var east := Position(p.x + 1, p.y);
    var south := Position(p.x, p.y + 1);
    var west := Position(p.x - 1, p.y);
    ClimbingOf(m, p, north, east) + ClimbingOf(m, p, south, west)
  }

  /** The climbing neighbours come in the order north, east, south,
      west. */
  lemma AscendingOrder(p: Position, m: Topography)
    requires IsPositionInMap(p, m)
    ensures forall a, b :: 0 <= a < b < |AscendingAround(p, m)| ==>
              Rank(p, AscendingAround(p, m)[a]) < Rank(p, AscendingAround(p, m)[b])
  {
    PairRanks(m, p, Position(p.x, p.y - 1), Position(p.x + 1, p.y), 0);
    PairRanks(m, p, Position(p.x, p.y + 1), Position(p.x - 1, p.y), 2);
    ConcatRanks(p, ClimbingOf(m, p, Position(p.x, p.y - 1), Position(p.x + 1, p.y)),
                ClimbingOf(m, p, Position(p.x, p.y + 1), Position(p.x - 1, p.y)));
  }

  /** Two runs of neighbours each in rank order, the first all ranked
      below 2 and the second all ranked 2 or more, make one run in rank
      order. */
  lemma ConcatRanks(p: Position, ne: seq<Position>, sw: seq<Position>)
    requires forall i :: 0 <= i < |ne| ==> Rank(p, ne[i]) < 2
    requires forall i :: 0 <= i < |sw| ==> 2 <= Rank(p, sw[i])
    requires forall i, j :: 0 <= i < j < |ne| ==> Rank(p, ne[i]) < Rank(p, ne[j])
    requires forall i, j :: 0 <= i < j < |sw| ==> Rank(p, sw[i]) < Rank(p, sw[j])
    ensures forall a, b :: 0 <= a < b < |ne + sw| ==> Rank(p, (ne + sw)[a]) < Rank(p, (ne + sw)[b])
  {
    var r := ne + sw;
    forall a, b | 0 <= a < b < |r|
      ensures Rank(p, r[a]) < Rank(p, r[b])
    {
      if b < |ne| {
        assert r[a] == ne[a] && r[b] == ne[b];
      } else if a >= |ne| {
        assert r[a] == sw[a - |ne|] && r[b] == sw[b - |ne|];
      } else {
        assert r[a] == ne[a] && r[b] == sw[b - |ne|];
      }
    }
  }

  /** The ranks within one pair of candidate neighbours. */
  lemma PairRanks(m: Topography, p: Position, a: Position, b: Position, lo: nat)
    requires IsPositionInMap(p, m)
    requires Rank(p, a) == lo && Rank(p, b) == lo + 1
    ensures forall i :: 0 <= i < |ClimbingOf(m, p, a, b)| ==>
              lo <= Rank(p, ClimbingOf(m, p, a, b)[i]) <= lo + 1
    ensures forall i, j :: 0 <= i < j < |ClimbingOf(m, p, a, b)| ==>
              Rank(p, ClimbingOf(m, p, a, b)[i]) < Rank(p, ClimbingOf(m, p, a, b)[j])
  {
  }

  /** The climbing neighbours are distinct. */
  lemma AscendingDistinct(p: Position, m: Topography)
    requires IsPositionInMap(p, m)
    ensures NoDuplicates(AscendingAround(p, m))
  {
    var ne := ClimbingOf(m, p, Position(p.x, p.y - 1), Position(p.x + 1, p.y));
    var sw := ClimbingOf(m, p, Position(p.x, p.y + 1), Position(p.x - 1, p.y));
    NoDuplicatesConcat(ne, sw);
  }

  // ---------------------------------------------------------------------
  // trails
  // ---------------------------------------------------------------------

  /** A hiking trail: at least two cells of the map, each a neighbour of
      the one before it and one unit higher, the last one at height 9. */
  predicate IsTrail(m: Topography, t: seq<Position>)
  {
    && |t| >= 2
    && (forall i :: 0 <= i < |t| ==> IsPositionInMap(t[i], m))
    && (forall i :: 0 <= i < |t| - 1 ==> Adjacent(t[i], t[i + 1]) && Climbs(m, t[i], t[i + 1]))
    && GetIntAtPosition(m, t[|t| - 1]) == 9
  }

  /** Along a trail the height grows by one per step up to 9, so the
      cell i steps before the end has height 9 - i. */
  lemma {:induction false} TrailHeight(m: Topography, t: seq<Position>, i: nat)
    requires IsTrail(m, t) && i < |t|
    ensures GetIntAtPosition(m, t[i]) + (|t| - 1 - i) == 9
    decreases |t| - i
  {
    if i < |t| - 1 {
      TrailHeight(m, t, i + 1);
      assert Climbs(m, t[i], t[i + 1]);
    }
  }

  /** Each of a list of trails with p put in front. */
  function Prepend(p: Position, ts: seq<seq<Position>>): (r: seq<seq<Position>>)
    ensures |r| == |ts| && forall i :: 0 <= i < |ts| ==> r[i] == [p] + ts[i]
  {
    seq(|ts|, i requires 0 <= i < |ts| => [p] + ts[i])
  }

  /** The trails `explore_trail` walks from p, in the order it walks them:
      for each climbing neighbour in turn, the trails through it. */
  function Trails(m: Topography, p: Position): (r: seq<seq<Position>>)
    requires IsPositionInMap(p, m)
    ensures forall i :: 0 <= i < |r| ==> |r[i]| >= 2 && r[i][0] == p
    decreases 9 - GetIntAtPosition(m, p), 1
  {
    TrailsVia(m, p, |AscendingAround(p, m)|)
  }

  /** The trails from p through its first k climbing neighbours. */
  function TrailsVia(m: Topography, p: Position, k: nat): (r: seq<seq<Position>>)
    requires IsPositionInMap(p, m) && k <= |AscendingAround(p, m)|
    ensures forall i :: 0 <= i < |r| ==> |r[i]| >= 2 && r[i][0] == p
    decreases 9 - GetIntAtPosition(m, p), 0, k
  {
    if k == 0 then []
    else TrailsVia(m, p, k - 1) + TrailsAt(m, p, AscendingAround(p, m)[k - 1])
  }

  /** The trails from p whose second cell is its climbing neighbour q:
      the step to q when q is a summit, otherwise p in front of every trail
      from q. */
  function TrailsAt(m: Topography, p: Position, q: Position): (r: seq<seq<Position>>)
    requires IsPositionInMap(p, m) && Climbs(m, p, q)
    ensures forall i :: 0 <= i < |r| ==> |r[i]| >= 2 && r[i][0] == p && r[i][1] == q
    decreases 9 - GetIntAtPosition(m, p), 0, 0
  {
    if GetIntAtPosition(m, q) == 9 then [[p, q]] else Prepend(p, Trails(m, q))
  }

  /** A cell of the map in front of a trail that starts at a neighbour one
      unit higher makes a trail. */
  lemma TrailCons(m: Topography, p: Position, t: seq<Position>)
    requires IsPositionInMap(p, m) && IsTrail(m, t)
    requires Adjacent(p, t[0]) && Climbs(m, p, t[0])
    ensures IsTrail(m, [p] + t)
  {
    var t' := [p] + t;
    forall i | 0 <= i < |t'| - 1
      ensures Adjacent(t'[i], t'[i + 1]) && Climbs(m, t'[i], t'[i + 1])
    {
      if i > 0 {
        assert t'[i] == t[i - 1] && t'[i + 1] == t[i];
      }
    }
  }

  /** Every trail `explore_trail` walks from p is a hiking trail. */
  lemma {:induction false} TrailsSound(m: Topography, p: Position)
    requires IsPositionInMap(p, m)
    ensures forall t :: t in Trails(m, p) ==> IsTrail(m, t)
    decreases 9 - GetIntAtPosition(m, p), 1
  {
    TrailsViaSound(m, p, |AscendingAround(p, m)|);
  }

  /** Every trail through the first k climbing neighbours is a hiking
      trail. */
  lemma {:induction false} TrailsViaSound(m: Topography, p: Position, k: nat)
    requires IsPositionInMap(p, m) && k <= |AscendingAround(p, m)|
    ensures forall t :: t in TrailsVia(m, p, k) ==> IsTrail(m, t)
    decreases 9 - GetIntAtPosition(m, p), 0, k
  {
    if k > 0 {
      var q := AscendingAround(p, m)[k - 1];
      TrailsViaSound(m, p, k - 1);
      TrailsAtSound(m, p, q);
    }
  }

  /** Every trail through the climbing neighbour q is a hiking trail. */
  lemma {:induction false} TrailsAtSound(m: Topography, p: Position, q: Position)
    requires IsPositionInMap(p, m) && Adjacent(p, q) && Climbs(m, p, q)
    ensures forall t :: t in TrailsAt(m, p, q) ==> IsTrail(m, t)
    decreases 9 - GetIntAtPosition(m, p), 0, 0
  {
    if GetIntAtPosition(m, q) != 9 {
      TrailsSound(m, q);
      forall t | t in TrailsAt(m, p, q)
        ensures IsTrail(m, t)
      {
        var i :| 0 <= i < |Trails(m, q)| && t == [p] + Trails(m, q)[i];
        TrailCons(m, p, Trails(m, q)[i]);
      }
    }
  }

  /** Every hiking trail from p is among those `explore_trail` walks. */
  lemma {:induction false} TrailsComplete(m: Topography, p: Position, t: seq<Position>)
    requires IsPositionInMap(p, m) && IsTrail(m, t) && t[0] == p
    ensures t in Trails(m, p)
    decreases 9 - GetIntAtPosition(m, p), 1
  {
    var ascending := AscendingAround(p, m);
    var q := t[1];
    assert q in ascending;
    var k :| 0 <= k < |ascending| && ascending[k] == q;
    TrailsAtComplete(m, p, q, t);
    TrailsViaHas(m, p, |ascending|, k, t);
  }

  /** A trail through the k-th climbing neighbour is among the trails
      through the first n of them, for every n past k. */
  lemma {:induction false} TrailsViaHas(m: Topography, p: Position, n: nat, k: nat, t: seq<Position>)
    requires IsPositionInMap(p, m) && k < n <= |AscendingAround(p, m)|
    requires t in TrailsAt(m, p, AscendingAround(p, m)[k])
    ensures t in TrailsVia(m, p, n)
    decreases n
  {
    if k < n - 1 {
      TrailsViaHas(m, p, n - 1, k, t);
    }
  }

  /** A hiking trail from p whose second cell is q is among the trails
      through q. */
  lemma {:induction false} TrailsAtComplete(m: Topography, p: Position, q: Position, t: seq<Position>)
    requires IsPositionInMap(p, m) && Climbs(m, p, q)
    requires IsTrail(m, t) && t[0] == p && t[1] == q
    ensures t in TrailsAt(m, p, q)
    decreases 9 - GetIntAtPosition(m, p), 0, 0
  {
    if GetIntAtPosition(m, q) == 9 {
      TrailHeight(m, t, 1);
      assert t == [p, q];
    } else {
      var rest := t[1..];
      TrailHeight(m, t, 1);
      forall i | 0 <= i < |rest| - 1
        ensures Adjacent(rest[i], rest[i + 1]) && Climbs(m, rest[i], rest[i + 1])
      {
        assert rest[i] == t[i + 1] && rest[i + 1] == t[i + 2];
      }
      assert IsTrail(m, rest);
      TrailsComplete(m, q, rest);
      var i :| 0 <= i < |Trails(m, q)| && Trails(m, q)[i] == rest;
      assert t == [p] + rest;
      assert TrailsAt(m, p, q)[i] == t;
    }
  }

  /** `explore_trail` walks no trail twice. */
  lemma {:induction false} TrailsDistinct(m: Topography, p: Position)
    requires IsPositionInMap(p, m)
    ensures NoDuplicates(Trails(m, p))
    decreases 9 - GetIntAtPosition(m, p), 1
  {
    AscendingDistinct(p, m);
    TrailsViaDistinct(m, p, |AscendingAround(p, m)|);
  }

  /** The trails through the first k climbing neighbours are distinct,
      and none of them goes through a later climbing neighbour. */
  lemma {:induction false} TrailsViaDistinct(m: Topography, p: Position, k: nat)
    requires IsPositionInMap(p, m) && k <= |AscendingAround(p, m)|
    requires NoDuplicates(AscendingAround(p, m))
    ensures NoDuplicates(TrailsVia(m, p, k))
    ensures forall t, j :: t in TrailsVia(m, p, k) && k <= j < |AscendingAround(p, m)| ==>
              t[1] != AscendingAround(p, m)[j]
    decreases 9 - GetIntAtPosition(m, p), 0, k
  {
    if k > 0 {
      var q := AscendingAround(p, m)[k - 1];
      TrailsViaDistinct(m, p, k - 1);
      TrailsAtDistinct(m, p, q);
      TrailsViaStep(m, p, k);
    }
  }

  /** One step of TrailsViaDistinct: adding the trails through the k-th
      climbing neighbour keeps the trails distinct. */
  lemma {:induction false} TrailsViaStep(m: Topography, p: Position, k: nat)
    requires IsPositionInMap(p, m) && 0 < k <= |AscendingAround(p, m)|
    requires NoDuplicates(AscendingAround(p, m))
    requires NoDuplicates(TrailsVia(m, p, k - 1))
    requires forall t, j :: t in TrailsVia(m, p, k - 1) && k - 1 <= j < |AscendingAround(p, m)| ==>
               t[1] != AscendingAround(p, m)[j]
    requires NoDuplicates(TrailsAt(m, p, AscendingAround(p, m)[k - 1]))
    ensures NoDuplicates(TrailsVia(m, p, k))
    ensures forall t, j :: t in TrailsVia(m, p, k) && k <= j < |AscendingAround(p, m)| ==>
              t[1] != AscendingAround(p, m)[j]
  {
    var ascending := AscendingAround(p, m);
    var q := ascending[k - 1];
    var before := TrailsVia(m, p, k - 1);
    var at := TrailsAt(m, p, q);
    assert TrailsVia(m, p, k) == before + at;
    forall t | t in before
      ensures t !in at
    {
      assert t[1] != ascending[k - 1];
    }
    NoDuplicatesConcat(before, at);
  }

  /** The trails through one climbing neighbour are distinct. */
  lemma {:induction false} TrailsAtDistinct(m: Topography, p: Position, q: Position)
    requires IsPositionInMap(p, m) && Climbs(m, p, q)
    ensures NoDuplicates(TrailsAt(m, p, q))
    decreases 9 - GetIntAtPosition(m, p), 0, 0
  {
    if GetIntAtPosition(m, q) != 9 {
      TrailsDistinct(m, q);
      var from := Trails(m, q);
      var at := TrailsAt(m, p, q);
      forall a, b | 0 <= a < b < |at|
        ensures at[a] != at[b]
      {
        assert at[a][1..] == from[a] && at[b][1..] == from[b];
      }
    }
  }

  // ---------------------------------------------------------------------
  // exploring
  // ---------------------------------------------------------------------

  /** The summit at the end of each trail. */
  function Summits(ts: seq<seq<Position>>): (r: seq<Position>)
    requires forall i :: 0 <= i < |ts| ==> |ts[i]| > 0
    ensures |r| == |ts| && forall i :: 0 <= i < |ts| ==> r[i] == ts[i][|ts[i]| - 1]
  {
    seq(|ts|, i requires 0 <= i < |ts| => ts[i][|ts[i]| - 1])
  }

  /** The summits of two lists of trails one after the other. */
  lemma SummitsConcat(a: seq<seq<Position>>, b: seq<seq<Position>>)
    requires forall i :: 0 <= i < |a| ==> |a[i]| > 0
    requires forall i :: 0 <= i < |b| ==> |b[i]| > 0
    ensures Summits(a + b) == Summits(a) + Summits(b)
  {
    var l, r := Summits(a + b), Summits(a) + Summits(b);
    forall i | 0 <= i < |l|
      ensures l[i] == r[i]
    {
      if i >= |a| {
        assert (a + b)[i] == b[i - |a|];
      }
    }
  }

  /** Putting a cell in front of trails keeps their summits. */
  lemma SummitsPrepend(p: Position, ts: seq<seq<Position>>)
    requires forall i :: 0 <= i < |ts| ==> |ts[i]| > 0
    ensures Summits(Prepend(p, ts)) == Summits(ts)
  {
    var l, r := Summits(Prepend(p, ts)), Summits(ts);
    forall i | 0 <= i < |l|
      ensures l[i] == r[i]
    {
      assert Prepend(p, ts)[i] == [p] + ts[i];
    }
  }

  /** `explore_trail`: the summit of every trail from the current position
      is appended to the found summits, in the order the trails are
      walked, and the score grows by one per trail, so by exactly the
      number of summits appended. */
  method ExploreTrail(currentTrailPos: Position, m: Topography, total: nat, foundSummits: seq<Position>)
    returns (summitsAndScore: SummitsAndScore)
    requires IsPositionInMap(currentTrailPos, m)
    ensures summitsAndScore.summits == foundSummits + Summits(Trails(m, currentTrailPos))
    ensures summitsAndScore.score == total + |Trails(m, currentTrailPos)|
    ensures summitsAndScore.score - total == |summitsAndScore.summits| - |foundSummits|
    decreases 9 - GetIntAtPosition(m, currentTrailPos), 1
  {
    var p := currentTrailPos;
    var positions := AscendingAround(p, m);
    summitsAndScore := SummitsAndScore(foundSummits, total);
    for k := 0 to |positions|
      invariant summitsAndScore.summits == foundSummits + Summits(TrailsVia(m, p, k))
      invariant summitsAndScore.score == total + |TrailsVia(m, p, k)|
    {
      ghost var before := TrailsVia(m, p, k);
      ghost var at := TrailsAt(m, p, positions[k]);
      assert TrailsVia(m, p, k + 1) == before + at;
      SummitsConcat(before, at);
      ConcatAssoc(foundSummits, Summits(before), Summits(at));
      summitsAndScore := ExploreNeighbour(p, positions[k], m, summitsAndScore);
    }
  }

  /** One turn of the loop of `explore_trail`, for the climbing neighbour
      position: a summit is appended and scores one, any other neighbour
      is explored in turn. */
  method ExploreNeighbour(p: Position, position: Position, m: Topography, acc: SummitsAndScore)
    returns (summitsAndScore: SummitsAndScore)
    requires IsPositionInMap(p, m) && Climbs(m, p, position)
    ensures summitsAndScore.summits == acc.summits + Summits(TrailsAt(m, p, position))
    ensures summitsAndScore.score == acc.score + |TrailsAt(m, p, position)|
    decreases 9 - GetIntAtPosition(m, p), 0
  {
    if GetIntAtPosition(m, position) == 9 {
      summitsAndScore := SummitsAndScore(acc.summits + [position], acc.score + 1);
    } else {
      SummitsPrepend(p, Trails(m, position));
      summitsAndScore := ExploreTrail(position, m, acc.score, acc.summits);
    }
  }

  // ---------------------------------------------------------------------
  // examples
  // ---------------------------------------------------------------------

  /** The small map of the source's tests. */
  const Small: Topography := Map([[0, 1, 2, 3], [1, 2, 3, 4], [8, 7, 6, 5], [9, 8, 7, 6]])

  /** A row of the small map is read digit by digit. */
  lemma ReadLineExample()
    ensures ReadLine("8765") == Some([8, 7, 6, 5])
  {
    var line := "8765";
    assert AllDigits(line);
    var r := ReadLine(line).value;
    assert r[0] == 8 && r[1] == 7 && r[2] == 6 && r[3] == 5;
    assert r == [8, 7, 6, 5];
  }

  /** From height 2 at (2, 0) the climbing neighbours are east and then
      south. */
  lemma AscendingExample()
    ensures AscendingAround(Position(2, 0), Small) == [Position(3, 0), Position(2, 1)]
  {
    assert !IsPositionInMap(Position(2, -1), Small);
    assert GetIntAtPosition(Small, Position(3, 0)) == 3;
    assert GetIntAtPosition(Small, Position(2, 1)) == 3;
    assert GetIntAtPosition(Small, Position(1, 0)) == 1;
  }
}
