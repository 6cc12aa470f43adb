/** Day 10, the answer: the trailheads found by scanning the map column
    by column, the score of each trailhead, and their sum, which counts
    every hiking trail of the map once. */
module Day10Scores {
  import opened Text
  import opened Day10

  // ---------------------------------------------------------------------
  // trailheads
  // ---------------------------------------------------------------------

  /** A trailhead: a cell of the map at height 0. */
  predicate IsTrailhead(m: Topography, q: Position)
  {
    IsPositionInMap(q, m) && GetIntAtPosition(m, q) == 0
  }

  /** p comes before q when the map is scanned column by column, each
      column from top to bottom. */
  predicate ColumnMajor(p: Position, q: Position)
  {
    p.x < q.x || (p.x == q.x && p.y < q.y)
  }

  /** The cells at height 0 in rows 0 to n - 1 of column i, top to
      bottom. */
  function ColumnZeros(m: Topography, i: nat, n: nat): (r: seq<Position>)
    requires i < Width(m) && n <= Height(m)
    ensures forall k :: 0 <= k < |r| ==> IsTrailhead(m, r[k])
  {
    if n == 0 then []
    else ColumnZeros(m, i, n - 1) + (if m.coordinates[n - 1][i] == 0 then [Position(i, n - 1)] else [])
  }

  /** The cells at height 0 in columns 0 to w - 1, column by column. */
  function ZerosBefore(m: Topography, w: nat): (r: seq<Position>)
    requires w <= Width(m)
    ensures forall k :: 0 <= k < |r| ==> IsTrailhead(m, r[k])
  {
    if w == 0 then [] else ZerosBefore(m, w - 1) + ColumnZeros(m, w - 1, Height(m))
  }

  /** What `get_trailheads` returns: every cell at height 0, column by
      column. */
  function Trailheads(m: Topography): (r: seq<Position>)
    ensures forall k :: 0 <= k < |r| ==> IsTrailhead(m, r[k])
  {
    ZerosBefore(m, Width(m))
  }

  /** Positions listed strictly in scanning order. */
  predicate InScanOrder(r: seq<Position>)
  {
    forall a, b :: 0 <= a < b < |r| ==> ColumnMajor(r[a], r[b])
  }

  /** Two runs in scanning order, the first wholly before the second, make
      one run in scanning order. */
  lemma ScanOrderConcat(r: seq<Position>, s: seq<Position>)
    requires InScanOrder(r) && InScanOrder(s)
    requires forall a, b :: 0 <= a < |r| && 0 <= b < |s| ==> ColumnMajor(r[a], s[b])
    ensures InScanOrder(r + s)
  {
    var t := r + s;
    forall a, b | 0 <= a < b < |t|
      ensures ColumnMajor(t[a], t[b])
    {
      if b < |r| {
        assert t[a] == r[a] && t[b] == r[b];
      } else if a >= |r| {
        assert t[a] == s[a - |r|] && t[b] == s[b - |r|];
      } else {
        assert t[a] == r[a] && t[b] == s[b - |r|];
      }
    }
  }

  /** The zeros of one column: exactly the trailheads of that column above
      row n, top to bottom. */
  lemma {:induction false} ColumnZerosMeaning(m: Topography, i: nat, n: nat)
    requires i < Width(m) && n <= Height(m)
    ensures forall q :: q in ColumnZeros(m, i, n) <==> IsTrailhead(m, q) && q.x == i && q.y < n
    ensures InScanOrder(ColumnZeros(m, i, n))
  {
    if n > 0 {
      ColumnZerosMeaning(m, i, n - 1);
      var before := ColumnZeros(m, i, n - 1);
      var here := if m.coordinates[n - 1][i] == 0 then [Position(i, n - 1)] else [];
      assert ColumnZeros(m, i, n) == before + here;
      ScanOrderConcat(before, here);
    }
  }

  /** The zeros of the first w columns: exactly the trailheads left of
      column w, in scanning order. */
  lemma {:induction false} ZerosBeforeMeaning(m: Topography, w: nat)
    requires w <= Width(m)
    ensures forall q :: q in ZerosBefore(m, w) <==> IsTrailhead(m, q) && q.x < w
    ensures InScanOrder(ZerosBefore(m, w))
  {
    if w > 0 {
      ZerosBeforeMeaning(m, w - 1);
      ColumnZerosMeaning(m, w - 1, Height(m));
      var before := ZerosBefore(m, w - 1);
      var column := ColumnZeros(m, w - 1, Height(m));
      assert ZerosBefore(m, w) == before + column;
      forall a, b | 0 <= a < |before| && 0 <= b < |column|
        ensures ColumnMajor(before[a], column[b])
      {
        assert before[a] in before && column[b] in column;
      }
      ScanOrderConcat(before, column);
    }
  }

  /** Scanning order admits no repeats. */
  lemma ScanOrderDistinct(r: seq<Position>)
    requires InScanOrder(r)
    ensures NoDuplicates(r)
  {
  }

  /** The trailheads are exactly the cells at height 0, each listed once,
      in scanning order. */
  lemma TrailheadsMeaning(m: Topography)
    ensures forall q :: q in Trailheads(m) <==> IsTrailhead(m, q)
    ensures InScanOrder(Trailheads(m)) && NoDuplicates(Trailheads(m))
  {
    ZerosBeforeMeaning(m, Width(m));
    ScanOrderDistinct(Trailheads(m));
  }

  /** `get_trailheads`: for each column, for each row, the cell is pushed
      when its height is 0. */
  method GetTrailheads(m: Topography) returns (trailheads: seq<Position>)
    ensures trailheads == Trailheads(m)
  {
    trailheads := [];
    for i := 0 to Width(m)
      invariant trailheads == ZerosBefore(m, i)
    {
      for j := 0 to Height(m)
        invariant trailheads == ZerosBefore(m, i) + ColumnZeros(m, i, j)
      {
        if m.coordinates[j][i] == 0 {
          ConcatAssoc(ZerosBefore(m, i), ColumnZeros(m, i, j), [Position(i, j)]);
          trailheads := trailheads + [Position(i, j)];
        }
      }
    }
  }

  // ---------------------------------------------------------------------
  // scores
  // ---------------------------------------------------------------------

  /** Every position of the list lies in the map. */
  predicate AllInMap(m: Topography, heads: seq<Position>)
  {
    forall i :: 0 <= i < |heads| ==> IsPositionInMap(heads[i], m)
  }

  /** `sum_trailhead_scores`: the sum of the scores; every score counts in
      full towards it. */
  function SumTrailheadScores(trailheadScores: seq<TrailheadScore>): (sum: nat)
    ensures forall i :: 0 <= i < |trailheadScores| ==> trailheadScores[i].score <= sum
  {
    if |trailheadScores| == 0 then 0
    else SumTrailheadScores(trailheadScores[..|trailheadScores| - 1]) + trailheadScores[|trailheadScores| - 1].score
  }

  /** The sum over two lists is the sum of the two sums. */
  lemma {:induction false} SumTrailheadScoresConcat(a: seq<TrailheadScore>, b: seq<TrailheadScore>)
    ensures SumTrailheadScores(a + b) == SumTrailheadScores(a) + SumTrailheadScores(b)
    decreases |b|
  {
    if |b| == 0 {
      assert a + b == a;
    } else {
      var b' := b[..|b| - 1];
      assert (a + b)[..|a + b| - 1] == a + b';
      SumTrailheadScoresConcat(a, b');
    }
  }

  /** The score list `find_score_sum_for_little_reindeer` builds from the
      first k trailheads: each with the number of trails from it. */
  function ScoresOf(m: Topography, heads: seq<Position>, k: nat): (r: seq<TrailheadScore>)
    requires AllInMap(m, heads) && k <= |heads|
    ensures |r| == k
  {
    if k == 0 then []
    else ScoresOf(m, heads, k - 1) + [TrailheadScore(heads[k - 1], |Trails(m, heads[k - 1])|)]
  }

  /** The trails from each listed trailhead, by its index in the list. */
  function TrailsOfHeads(m: Topography, heads: seq<Position>): nat -> seq<seq<Position>>
  {
    (k: nat) => if k < |heads| && IsPositionInMap(heads[k], m) then Trails(m, heads[k]) else []
  }

  /** The hiking trails of the map: all the trails from all its
      trailheads, trailhead by trailhead. */
  function HikingTrails(m: Topography): seq<seq<Position>>
  {
    Concat(TrailsOfHeads(m, Trailheads(m)), |Trailheads(m)|)
  }

  /** The sum of the scores of the first k trailheads is the number of
      trails from them. */
  lemma {:induction false} SumOfScores(m: Topography, heads: seq<Position>, k: nat)
    requires AllInMap(m, heads) && k <= |heads|
    ensures SumTrailheadScores(ScoresOf(m, heads, k)) == |Concat(TrailsOfHeads(m, heads), k)|
  {
    if k > 0 {
      SumOfScores(m, heads, k - 1);
      var s := ScoresOf(m, heads, k);
      assert s[..k - 1] == ScoresOf(m, heads, k - 1);
      assert TrailsOfHeads(m, heads)(k - 1) == Trails(m, heads[k - 1]);
    }
  }

  /** `find_score_sum_for_little_reindeer`: each trailhead is explored
      from a score of 0 and no summits, its score recorded, and the
      scores summed; the sum is the number of hiking trails in the map. */
  method FindScoreSumForLittleReindeer(m: Topography) returns (sum: nat)
    ensures sum == |HikingTrails(m)|
  {
    var trailheadScores: seq<TrailheadScore> := [];
    var trailheads := GetTrailheads(m);
    for k := 0 to |trailheads|
      invariant trailheadScores == ScoresOf(m, trailheads, k)
    {
      var summitsAndScore := ExploreTrail(trailheads[k], m, 0, []);
      assert summitsAndScore.score == |Trails(m, trailheads[k])|;
      trailheadScores := trailheadScores + [TrailheadScore(trailheads[k], summitsAndScore.score)];
    }
    SumOfScores(m, trailheads, |trailheads|);
    sum := SumTrailheadScores(trailheadScores);
  }

  /** Every hiking trail is a trail that starts at height 0. */
  lemma HikingTrailsSound(m: Topography)
    ensures forall t :: t in HikingTrails(m) ==> IsTrail(m, t) && GetIntAtPosition(m, t[0]) == 0
  {
    var heads := Trailheads(m);
    var f := TrailsOfHeads(m, heads);
    forall t | t in Concat(f, |heads|)
      ensures IsTrail(m, t) && GetIntAtPosition(m, t[0]) == 0
    {
      var k := ConcatFrom(f, |heads|, t);
      TrailsSound(m, heads[k]);
    }
  }

  /** Every trail that starts at height 0 is a hiking trail. */
  lemma HikingTrailsComplete(m: Topography, t: seq<Position>)
    requires IsTrail(m, t) && GetIntAtPosition(m, t[0]) == 0
    ensures t in HikingTrails(m)
  {
    var heads := Trailheads(m);
    TrailheadsMeaning(m);
    assert t[0] in heads;
    var k :| 0 <= k < |heads| && heads[k] == t[0];
    TrailsComplete(m, heads[k], t);
    ConcatHas(TrailsOfHeads(m, heads), |heads|, k, t);
  }

  /** The trails from any one trailhead are distinct. */
  lemma TrailsOfHeadsDistinct(m: Topography, heads: seq<Position>)
    requires AllInMap(m, heads)
    ensures forall k: nat :: k < |heads| ==> NoDuplicates(TrailsOfHeads(m, heads)(k))
  {
    forall k: nat | k < |heads|
      ensures NoDuplicates(TrailsOfHeads(m, heads)(k))
    {
      TrailsDistinct(m, heads[k]);
    }
  }

  /** Two different trailheads share no trail, since a trail starts at
      its trailhead. */
  lemma TrailsOfHeadsDisjoint(m: Topography, heads: seq<Position>)
    requires AllInMap(m, heads) && NoDuplicates(heads)
    ensures forall j: nat, k: nat, t :: j < k < |heads| && t in TrailsOfHeads(m, heads)(j) ==> t !in TrailsOfHeads(m, heads)(k)
  {
    forall j: nat, k: nat, t | j < k < |heads| && t in TrailsOfHeads(m, heads)(j)
      ensures t !in TrailsOfHeads(m, heads)(k)
    {
      assert heads[j] != heads[k];
    }
  }

  /** No hiking trail is listed twice. */
  lemma HikingTrailsDistinct(m: Topography)
    ensures NoDuplicates(HikingTrails(m))
  {
    var heads := Trailheads(m);
    TrailheadsMeaning(m);
    TrailsOfHeadsDistinct(m, heads);
    TrailsOfHeadsDisjoint(m, heads);
    ConcatDistinct(TrailsOfHeads(m, heads), |heads|);
  }

  /** The hiking trails are exactly the trails that start at height 0,
      each listed once. */
  lemma ScoreSumMeaning(m: Topography)
    ensures forall t :: t in HikingTrails(m) <==> IsTrail(m, t) && GetIntAtPosition(m, t[0]) == 0
    ensures NoDuplicates(HikingTrails(m))
  {
    HikingTrailsSound(m);
    forall t | IsTrail(m, t) && GetIntAtPosition(m, t[0]) == 0
      ensures t in HikingTrails(m)
    {
      HikingTrailsComplete(m, t);
    }
    HikingTrailsDistinct(m);
  }

  // ---------------------------------------------------------------------
  // examples
  // ---------------------------------------------------------------------

  /** With the 0 moved to (1, 0), that cell is the only trailhead. */
  lemma TrailheadsExample()
    ensures Trailheads(Map([[1, 0, 2, 3], [1, 2, 3, 4], [8, 7, 6, 5], [9, 8, 7, 6]])) == [Position(1, 0)]
  {
    var m: Topography := Map([[1, 0, 2, 3], [1, 2, 3, 4], [8, 7, 6, 5], [9, 8, 7, 6]]);
    assert ColumnZeros(m, 0, 4) == [];
    assert ColumnZeros(m, 1, 4) == [Position(1, 0)];
    assert ColumnZeros(m, 2, 4) == [];
    assert ColumnZeros(m, 3, 4) == [];
  }

  /** Scores 3 and 5 sum to 8. */
  lemma SumExample()
    ensures SumTrailheadScores([TrailheadScore(Position(1, 0), 3), TrailheadScore(Position(5, 0), 5)]) == 8
  {
    var s := [TrailheadScore(Position(1, 0), 3), TrailheadScore(Position(5, 0), 5)];
    assert s[..1][..0] == [];
  }
}
