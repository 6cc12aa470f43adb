/** Day 1: two columns of location ids are read from the input, each column
    is sorted, and the lists are compared by their total distance and by
    their similarity score. */
module Day1 {
  import opened Text

  /** The two numbers of one input line. */
  datatype Numbers = Numbers(first: int, second: int)

  /** The two sorted columns. */
  datatype SantasLists = SantasLists(left: seq<int>, right: seq<int>)

  // ---------------------------------------------------------------------
  // reading
  // ---------------------------------------------------------------------

  /** `read_line_of_strings`: the text before the first space is the first
      number, the trimmed rest is the second. A line without a space or with
      a field that is not a number makes the source panic: None; so does a
      line that starts with a space, whose first field is empty. */
  function ReadLineOfStrings(line: string): (r: Option<Numbers>)
    ensures ' ' !in line ==> r.None?
    ensures |line| > 0 && line[0] == ' ' ==> r.None?
  {
    match FindChar(line, ' ')
    case None => None
    case Some(p) =>
      match (ParseInt(line[..p]), ParseInt(Trim(line[p..])))
      case (Some(a), Some(b)) => Some(Numbers(a, b))
      case _ => None
  }

  function Spaces(n: nat): (s: string)
    ensures |s| == n && AllWhitespace(s) && forall k :: 0 <= k < n ==> s[k] == ' '
  {
    if n == 0 then "" else [' '] + Spaces(n - 1)
  }

  /** A line written as the source's input has it (two numbers separated by
      a run of spaces) is read back as those two numbers. */
  lemma {:induction false} ReadLineOfWrittenNumbers(a: int, b: int, gap: nat)
    requires gap >= 1
    ensures ReadLineOfStrings(IntToString(a) + Spaces(gap) + IntToString(b)) == Some(Numbers(a, b))
  {
    var sa, sb := IntToString(a), IntToString(b);
    var line := sa + Spaces(gap) + sb;
    IntToStringShape(a);
    IntToStringShape(b);
    ConcatAssoc(sa, Spaces(gap), sb);
    FindCharAfter(sa, ' ', Spaces(gap) + sb);
    assert line[..|sa|] == sa;
    assert line[|sa|..] == Spaces(gap) + sb + "";
    TrimOfPadded(Spaces(gap), sb, "");
    ParseIntOfIntToString(a);
    ParseIntOfIntToString(b);
  }

  /** Every line of the input, read; None when one of them fails. */
  function ReadAll(lines: seq<string>): (r: Option<seq<Numbers>>)
    ensures r.Some? <==> forall i :: 0 <= i < |lines| ==> ReadLineOfStrings(lines[i]).Some?
    ensures r.Some? ==> |r.value| == |lines|
                        && forall i :: 0 <= i < |lines| ==> ReadLineOfStrings(lines[i]) == Some(r.value[i])
  {
    var xs := seq(|lines|, i requires 0 <= i < |lines| => ReadLineOfStrings(lines[i]));
    assert forall i :: 0 <= i < |lines| ==> xs[i] == ReadLineOfStrings(lines[i]);
    AllSome(xs)
  }

  function Firsts(ns: seq<Numbers>): (r: seq<int>)
    ensures |r| == |ns| && forall i :: 0 <= i < |ns| ==> r[i] == ns[i].first
  {
    seq(|ns|, i requires 0 <= i < |ns| => ns[i].first)
  }

  function Seconds(ns: seq<Numbers>): (r: seq<int>)
    ensures |r| == |ns| && forall i :: 0 <= i < |ns| ==> r[i] == ns[i].second
  {
    seq(|ns|, i requires 0 <= i < |ns| => ns[i].second)
  }

  // ---------------------------------------------------------------------
  // sorting (Rust's `Vec::sort` on integers)
  // ---------------------------------------------------------------------

  predicate Sorted(s: seq<int>)
  {
    forall i, j :: 0 <= i < j < |s| ==> s[i] <= s[j]
  }

  function Insert(x: int, s: seq<int>): (r: seq<int>)
    requires Sorted(s)
    ensures Sorted(r) && multiset(r) == multiset(s) + multiset{x} && |r| == |s| + 1
    decreases |s|
  {
    if |s| == 0 then [x]
    else if x <= s[0] then [x] + s
    else
      var rest := Insert(x, s[1..]);
      assert s == [s[0]] + s[1..];
      LowerBoundKept(s[0], x, s[1..], rest);
      [s[0]] + rest
  }

  /** A bound below every element of s and below x stays below every
      element of a permutation of s with x added. */
  lemma LowerBoundKept(y: int, x: int, s: seq<int>, r: seq<int>)
    requires y <= x && forall k :: 0 <= k < |s| ==> y <= s[k]
    requires multiset(r) == multiset(s) + multiset{x}
    ensures forall k :: 0 <= k < |r| ==> y <= r[k]
  {
    forall k | 0 <= k < |r|
      ensures y <= r[k]
    {
      assert r[k] in multiset(r);
      if r[k] != x {
        assert r[k] in multiset(s);
      }
    }
  }

  /** The sorted permutation of a list: the model of the library sort. */
  function Sort(s: seq<int>): (r: seq<int>)
    ensures Sorted(r) && multiset(r) == multiset(s) && |r| == |s|
    decreases |s|
  {
    if |s| == 0 then []
    else
      assert s == s[..|s| - 1] + [s[|s| - 1]];
      Insert(s[|s| - 1], Sort(s[..|s| - 1]))
  }

  // ---------------------------------------------------------------------
  // building the lists
  // ---------------------------------------------------------------------

  /** The lists `create_santas_lists` builds, as a function of the input:
      one entry per input line in each, each list the sorted permutation of
      its column; the lists exist exactly when the input is not empty and
      every line reads. */
  function SantasListsOf(input: string): (r: Option<SantasLists>)
    ensures r.Some? <==> |Lines(input)| > 0 && ReadAll(Lines(input)).Some?
    ensures r.Some? ==>
              var ns := ReadAll(Lines(input)).value;
              && |r.value.left| == |r.value.right| == |Lines(input)|
              && Sorted(r.value.left) && Sorted(r.value.right)
              && multiset(r.value.left) == multiset(Firsts(ns))
              && multiset(r.value.right) == multiset(Seconds(ns))
  {
    match ReadAll(Lines(input))
    case None => None
    case Some(ns) =>
      if |ns| == 0 then None  // `left_list[0]` panics on an empty input
      else Some(SantasLists(Sort(Firsts(ns)), Sort(Seconds(ns))))
  }

  /** The loop of `create_santas_lists` that reads every line and pushes
      its two numbers onto the two lists. */
  method ReadColumns(lines: seq<string>) returns (r: Option<SantasLists>)
    ensures r.Some? <==> ReadAll(lines).Some?
    ensures r.Some? ==> r.value.left == Firsts(ReadAll(lines).value)
                        && r.value.right == Seconds(ReadAll(lines).value)
  {
    var leftList: seq<int> := [];
    var rightList: seq<int> := [];
    ghost var ns: seq<Numbers> := [];
    var i := 0;
    while i < |lines|
      invariant 0 <= i <= |lines| && |ns| == i
      invariant forall k :: 0 <= k < i ==> ReadLineOfStrings(lines[k]) == Some(ns[k])
      invariant leftList == Firsts(ns) && rightList == Seconds(ns)
    {
      var pair := ReadLineOfStrings(lines[i]);
      if pair.None? {
        return None;
      }
      assert Firsts(ns + [pair.value]) == Firsts(ns) + [pair.value.first];
      assert Seconds(ns + [pair.value]) == Seconds(ns) + [pair.value.second];
      leftList := leftList + [pair.value.first];
      rightList := rightList + [pair.value.second];
      ns := ns + [pair.value];
      i := i + 1;
    }
    assert ns == ReadAll(lines).value;
    r := Some(SantasLists(leftList, rightList));
  }

  /** `create_santas_lists`: one entry per line in each list, each list the
      sorted permutation of its column. None stands for the panics (a line
      that does not read, an empty input). */
  method CreateSantasLists(input: string) returns (r: Option<SantasLists>)
    ensures r == SantasListsOf(input)
  {
    var columns := ReadColumns(Lines(input));
    if columns.None? {
      return None;
    }
    var leftList := Sort(columns.value.left);
    var rightList := Sort(columns.value.right);
    if |leftList| == 0 {
      return None;
    }
    r := Some(SantasLists(leftList, rightList));
  }

  // ---------------------------------------------------------------------
  // distance
  // ---------------------------------------------------------------------

  function Abs(x: int): nat
  {
    if x < 0 then -x else x
  }

  /** The total distance between two lists of the same length: the sum of
      the distances between the i-th elements. */
  function Distance(left: seq<int>, right: seq<int>): int
    requires |left| == |right|
    decreases |left|
  {
    if |left| == 0 then 0
    else
      var n := |left| - 1;
      Distance(left[..n], right[..n]) + Abs(left[n] - right[n])
  }

  /** The distance is never negative, and it is zero exactly when the two
      lists are equal. */
  lemma {:induction false} DistanceZeroIffEqual(left: seq<int>, right: seq<int>)
    requires |left| == |right|
    ensures Distance(left, right) >= 0
    ensures Distance(left, right) == 0 <==> left == right
    decreases |left|
  {
    if |left| > 0 {
      var n := |left| - 1;
      DistanceZeroIffEqual(left[..n], right[..n]);
      assert left == left[..n] + [left[n]];
      assert right == right[..n] + [right[n]];
      if left == right {
        assert left[..n] == right[..n];
      }
    }
  }

  /** The distance does not depend on which list is called left. */
  lemma {:induction false} DistanceSymmetric(left: seq<int>, right: seq<int>)
    requires |left| == |right|
    ensures Distance(left, right) == Distance(right, left)
    decreases |left|
  {
    if |left| > 0 {
      DistanceSymmetric(left[..|left| - 1], right[..|left| - 1]);
    }
  }

  /** The loop of `calculate_distance_between_lists`: the sum of the
      absolute differences of the paired entries. */
  method SumOfDistances(left: seq<int>, right: seq<int>) returns (sum: int)
    requires |left| == |right|
    ensures sum == Distance(left, right)
  {
    sum := 0;
    for i := 0 to |left|
      invariant sum == Distance(left[..i], right[..i])
    {
      assert left[..i + 1][..i] == left[..i] && right[..i + 1][..i] == right[..i];
      sum := sum + Abs(left[i] - right[i]);
    }
    assert left[..|left|] == left && right[..|left|] == right;
  }

  /** `calculate_distance_between_lists`: the distance of the sorted lists,
      never negative. */
  method CalculateDistanceBetweenLists(input: string) returns (r: Option<int>)
    ensures r.Some? <==> SantasListsOf(input).Some?
    ensures r.Some? ==> var ls := SantasListsOf(input).value;
                        r.value == Distance(ls.left, ls.right) && r.value >= 0
  {
    var lists := CreateSantasLists(input);
    if lists.None? {
      return None;
    }
    var sum := SumOfDistances(lists.value.left, lists.value.right);
    DistanceZeroIffEqual(lists.value.left, lists.value.right);
    r := Some(sum);
  }

  /** The example of the puzzle, once its columns are sorted. */
  lemma DistanceExample()
    ensures Distance([1, 2, 3, 3, 3, 4], [3, 3, 3, 4, 5, 9]) == 11
  {
    assert [1, 2, 3, 3, 3, 4][..5] == [1, 2, 3, 3, 3];
    assert [3, 3, 3, 4, 5, 9][..5] == [3, 3, 3, 4, 5];
    assert [1, 2, 3, 3, 3][..4] == [1, 2, 3, 3];
    assert [3, 3, 3, 4, 5][..4] == [3, 3, 3, 4];
    assert [1, 2, 3, 3][..3] == [1, 2, 3];
    assert [3, 3, 3, 4][..3] == [3, 3, 3];
    assert [1, 2, 3][..2] == [1, 2];
    assert [3, 3, 3][..2] == [3, 3];
    assert [1, 2][..1] == [1];
    assert [3, 3][..1] == [3];
  }

  // ---------------------------------------------------------------------
  // similarity
  // ---------------------------------------------------------------------

  /** How many times x occurs in s. */
  function Count(x: int, s: seq<int>): nat
    decreases |s|
  {
    if |s| == 0 then 0 else Count(x, s[..|s| - 1]) + (if s[|s| - 1] == x then 1 else 0)
  }

  lemma {:induction false} CountIsMultiplicity(x: int, s: seq<int>)
    ensures Count(x, s) == multiset(s)[x]
    decreases |s|
  {
    if |s| > 0 {
      CountIsMultiplicity(x, s[..|s| - 1]);
      assert s == s[..|s| - 1] + [s[|s| - 1]];
    }
  }

  /** The similarity score: every number of the left list weighted by how
      often it appears in the right list. */
  function Similarity(left: seq<int>, right: seq<int>): int
    decreases |left|
  {
    if |left| == 0 then 0
    else Similarity(left[..|left| - 1], right) + left[|left| - 1] * Count(left[|left| - 1], right)
  }

  /** The similarity depends on the right list only through its multiset,
      so sorting the right column does not change it. */
  lemma {:induction false} SimilarityOfPermutedRight(left: seq<int>, right: seq<int>, right': seq<int>)
    requires multiset(right) == multiset(right')
    ensures Similarity(left, right) == Similarity(left, right')
    decreases |left|
  {
    if |left| > 0 {
      SimilarityOfPermutedRight(left[..|left| - 1], right, right');
      CountIsMultiplicity(left[|left| - 1], right);
      CountIsMultiplicity(left[|left| - 1], right');
    }
  }

  /** Moving one element of the left list to the end keeps the similarity. */
  lemma {:induction false} SimilarityMoveToEnd(a: seq<int>, x: int, b: seq<int>, right: seq<int>)
    ensures Similarity(a + [x] + b, right) == Similarity(a + b + [x], right)
    decreases |b|
  {
    if |b| == 0 {
      assert a + [x] + b == a + b + [x];
    } else {
      var b' := b[..|b| - 1];
      var y := b[|b| - 1];
      assert (a + [x] + b)[..|a + [x] + b| - 1] == a + [x] + b';
      SimilarityMoveToEnd(a, x, b', right);
      assert (a + b' + [x] + [y])[..|a + b' + [x] + [y]| - 1] == a + b' + [x];
      assert (a + b' + [x])[..|a + b' + [x]| - 1] == a + b';
      assert (a + b' + [y])[..|a + b' + [y]| - 1] == a + b';
      assert a + b + [x] == a + b' + [y] + [x];
      assert (a + b + [x])[..|a + b + [x]| - 1] == a + b' + [y];
    }
  }

  /** Taking the same element off two permutations of each other leaves
      permutations of each other. */
  lemma PermutationWithout(init: seq<int>, x: int, a: seq<int>, b: seq<int>)
    requires multiset(init + [x]) == multiset(a + [x] + b)
    ensures multiset(init) == multiset(a + b)
  {
    assert multiset(a + [x] + b) == multiset(a) + multiset{x} + multiset(b);
    assert multiset(a + b) == multiset(a) + multiset(b);
    assert multiset(init + [x]) == multiset(init) + multiset{x};
    assert multiset(init) == multiset(init + [x]) - multiset{x};
    assert multiset(a + b) == multiset(a + [x] + b) - multiset{x};
  }

  /** The similarity depends on the left list only through its multiset. */
  lemma {:induction false} SimilarityOfPermutedLeft(left: seq<int>, left': seq<int>, right: seq<int>)
    requires multiset(left) == multiset(left')
    ensures Similarity(left, right) == Similarity(left', right)
    decreases |left|
  {
    if |left| > 0 {
      var n := |left| - 1;
      var x := left[n];
      assert left == left[..n] + [x];
      assert x in multiset(left');
      var k :| 0 <= k < |left'| && left'[k] == x;
      var a, b := left'[..k], left'[k + 1..];
      assert left' == a + [x] + b;
      PermutationWithout(left[..n], x, a, b);
      SimilarityMoveToEnd(a, x, b, right);
      SimilarityOfPermutedLeft(left[..n], a + b, right);
      assert (a + b + [x])[..|a + b + [x]| - 1] == a + b;
    }
  }

  /** The nested loops of `calculate_similarity_between_lists`: every
      entry of the left list times the number of its occurrences in the
      right list. */
  method SumOfSimilarities(left: seq<int>, right: seq<int>) returns (similaritySum: int)
    ensures similaritySum == Similarity(left, right)
  {
    similaritySum := 0;
    for i := 0 to |left|
      invariant similaritySum == Similarity(left[..i], right)
    {
      var element := left[i];
      var count := 0;
      for k := 0 to |right|
        invariant count == Count(element, right[..k])
      {
        assert right[..k + 1][..k] == right[..k];
        if element == right[k] {
          count := count + 1;
        }
      }
      assert right[..|right|] == right;
      assert left[..i + 1][..i] == left[..i];
      similaritySum := similaritySum + element * count;
    }
    assert left[..|left|] == left;
  }

  /** `calculate_similarity_between_lists`. Because the similarity only
      depends on the multisets, it equals the similarity of the unsorted
      columns as read. */
  method CalculateSimilarityBetweenLists(input: string) returns (r: Option<int>)
    ensures r.Some? <==> SantasListsOf(input).Some?
    ensures r.Some? ==>
              var ns := ReadAll(Lines(input)).value;
              r.value == Similarity(Firsts(ns), Seconds(ns))
  {
    var lists := CreateSantasLists(input);
    if lists.None? {
      return None;
    }
    var left, right := lists.value.left, lists.value.right;
    var similaritySum := SumOfSimilarities(left, right);
    ghost var ns := ReadAll(Lines(input)).value;
    SimilarityOfPermutedRight(left, right, Seconds(ns));
    SimilarityOfPermutedLeft(left, Firsts(ns), Seconds(ns));
    r := Some(similaritySum);
  }

  /** The example of the puzzle, on its unsorted columns. */
  lemma SimilarityExample()
    ensures Similarity([3, 4, 2, 1, 3, 3], [4, 3, 5, 3, 9, 3]) == 31
  {
    var right := [4, 3, 5, 3, 9, 3];
    CountIsMultiplicity(3, right);
    CountIsMultiplicity(4, right);
    CountIsMultiplicity(2, right);
    CountIsMultiplicity(1, right);
    assert multiset(right)[3] == 3;
    assert multiset(right)[4] == 1;
    assert multiset(right)[2] == 0;
    assert multiset(right)[1] == 0;
    assert [3, 4, 2, 1, 3, 3][..5] == [3, 4, 2, 1, 3];
    assert [3, 4, 2, 1, 3][..4] == [3, 4, 2, 1];
    assert [3, 4, 2, 1][..3] == [3, 4, 2];
    assert [3, 4, 2][..2] == [3, 4];
    assert [3, 4][..1] == [3];
  }
}
