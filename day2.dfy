/** Day 2: every input line is a report of levels; a report is safe when
    its levels move in one direction by 1 to 3 at each step, with the
    tolerance for one bad level that `is_report_safe` implements. */
module Day2 {
  import opened Text

  // ---------------------------------------------------------------------
  // reading
  // ---------------------------------------------------------------------

  /** The `filter_map` over the fields: every field that parses as a
      number, in order; the others are dropped. */
  function ParseFields(fields: seq<string>): (r: seq<int>)
    ensures |r| <= |fields|
    decreases |fields|
  {
    if |fields| == 0 then []
    else
      var init := ParseFields(fields[..|fields| - 1]);
      match ParseInt(fields[|fields| - 1])
      case Some(n) => init + [n]
      case None => init
  }

  /** `read_line_of_strings`: the numbers among the space separated fields,
      at most one per field; a line without a space is one field. */
  function ReadLineOfStrings(line: string): (r: seq<int>)
    ensures |r| <= |Split(line, ' ')|
    ensures ' ' !in line ==> r == (if ParseInt(line).Some? then [ParseInt(line).value] else [])
  {
    if ' ' in line then ParseFields(Split(line, ' '))
    else
      SplitWithoutSeparator(line, ' ');
      assert [line][..0] == [];
      ParseFields(Split(line, ' '))
  }

  function Fields(xs: seq<int>): (r: seq<string>)
    ensures |r| == |xs| && forall i :: 0 <= i < |xs| ==> r[i] == IntToString(xs[i])
  {
    seq(|xs|, i requires 0 <= i < |xs| => IntToString(xs[i]))
  }

  /** Fields that are not numbers, such as the empty fields between two
      consecutive spaces, are dropped and change nothing. */
  lemma {:induction false} ParseFieldsDropsOthers(a: seq<string>, f: string, b: seq<string>)
    requires ParseInt(f).None?
    ensures ParseFields(a + [f] + b) == ParseFields(a + b)
    decreases |b|
  {
    if |b| == 0 {
      assert (a + [f] + b)[..|a + [f] + b| - 1] == a;
      assert a + b == a;
    } else {
      var b' := b[..|b| - 1];
      ParseFieldsDropsOthers(a, f, b');
      assert (a + [f] + b)[..|a + [f] + b| - 1] == a + [f] + b';
      assert (a + b)[..|a + b| - 1] == a + b';
    }
  }

  lemma {:induction false} ParseFieldsOfFields(xs: seq<int>)
    ensures ParseFields(Fields(xs)) == xs
    decreases |xs|
  {
    if |xs| > 0 {
      var n := |xs| - 1;
      ParseFieldsOfFields(xs[..n]);
      assert Fields(xs)[..n] == Fields(xs[..n]);
      ParseIntOfIntToString(xs[n]);
    }
  }

  /** A report written with single spaces between its levels reads back as
      the same levels. */
  lemma ReadLineOfWrittenReport(xs: seq<int>)
    requires |xs| > 0
    ensures ReadLineOfStrings(Join(Fields(xs), ' ')) == xs
  {
    forall i | 0 <= i < |xs| ensures ' ' !in Fields(xs)[i] {
      IntToStringShape(xs[i]);
    }
    SplitOfJoin(Fields(xs), ' ');
    ParseFieldsOfFields(xs);
  }

  /** `create_reports`: one report per input line. */
  method CreateReports(input: string) returns (reports: seq<seq<int>>)
    ensures |reports| == |Lines(input)|
    ensures forall i :: 0 <= i < |reports| ==> reports[i] == ReadLineOfStrings(Lines(input)[i])
  {
    var lines := Lines(input);
    reports := [];
    for i := 0 to |lines|
      invariant |reports| == i
      invariant forall k :: 0 <= k < i ==> reports[k] == ReadLineOfStrings(lines[k])
    {
      reports := reports + [ReadLineOfStrings(lines[i])];
    }
  }

  // ---------------------------------------------------------------------
  // the strict check
  // ---------------------------------------------------------------------

  /** One adjacent pair of levels, first then second, is acceptable: it
      does not go against the direction and differs by 1 to 3. */
  predicate PairOk(first: int, second: int, asc: bool)
  {
    && !(asc && first > second)
    && !(!asc && second > first)
    && 1 <= Abs(second - first) <= 3
  }

  function Abs(x: int): nat
  {
    if x < 0 then -x else x
  }

  /** Every adjacent pair of the report is acceptable. */
  predicate StrictSafe(report: seq<int>, asc: bool)
  {
    forall i :: 0 <= i < |report| - 1 ==> PairOk(report[i], report[i + 1], asc)
  }

  /** `is_report_safe_strict`. An empty report underflows `len() - 1`. */
  method IsReportSafeStrict(report: seq<int>, asc: bool) returns (safe: bool)
    requires |report| > 0
    ensures safe <==> StrictSafe(report, asc)
  {
    for i := 0 to |report| - 1
      invariant forall k :: 0 <= k < i ==> PairOk(report[k], report[k + 1], asc)
    {
      var firstNumber := report[i];
      var secondNumber := report[i + 1];
      if asc && firstNumber > secondNumber {
        return false;
      } else if !asc && secondNumber > firstNumber {
        return false;
      }
      var difference := Abs(secondNumber - firstNumber);
      if difference < 1 || difference > 3 {
        return false;
      }
    }
    return true;
  }

  // ---------------------------------------------------------------------
  // the tolerant check
  // ---------------------------------------------------------------------

  /** Number of rising adjacent pairs. */
  function Rises(report: seq<int>): nat
    decreases |report|
  {
    if |report| < 2 then 0
    else Rises(report[..|report| - 1]) + (if report[|report| - 1] > report[|report| - 2] then 1 else 0)
  }

  /** Number of falling adjacent pairs. */
  function Falls(report: seq<int>): nat
    decreases |report|
  {
    if |report| < 2 then 0
    else Falls(report[..|report| - 1]) + (if report[|report| - 1] < report[|report| - 2] then 1 else 0)
  }

  /** The direction the report is judged against: ascending exactly when
      rising pairs strictly outnumber falling ones, so a tie is descending. */
  function Ascending(report: seq<int>): bool
  {
    Rises(report) > Falls(report)
  }

  /** The indices pushed for the pair at position i: both of its indices
      once for a step against the direction, and once more for a step
      whose size is not 1 to 3. */
  function PairFlags(report: seq<int>, asc: bool, i: nat): (r: seq<nat>)
    requires i + 1 < |report|
    ensures |r| == 0 <==> PairOk(report[i], report[i + 1], asc)
    ensures forall k :: 0 <= k < |r| ==> r[k] == i || r[k] == i + 1
  {
    var first, second := report[i], report[i + 1];
    (if (asc && first > second) || (!asc && second > first) then [i, i + 1] else [])
    + (if Abs(second - first) < 1 || Abs(second - first) > 3 then [i, i + 1] else [])
  }

  /** The indices flagged by the pairs before position n, in order. */
  function BadIndices(report: seq<int>, asc: bool, n: nat): (r: seq<nat>)
    requires n < |report|
    ensures forall k :: 0 <= k < |r| ==> r[k] <= n
  {
    if n == 0 then [] else BadIndices(report, asc, n - 1) + PairFlags(report, asc, n - 1)
  }

  /** Nothing is flagged exactly when every pair so far is acceptable. */
  lemma {:induction false} NoBadIndicesIffPairsOk(report: seq<int>, asc: bool, n: nat)
    requires n < |report|
    ensures |BadIndices(report, asc, n)| == 0 <==>
            forall i :: 0 <= i < n ==> PairOk(report[i], report[i + 1], asc)
  {
    if n > 0 {
      NoBadIndicesIffPairsOk(report, asc, n - 1);
    }
  }

  /** Both indices of every unacceptable pair are flagged. */
  lemma {:induction false} BadPairsAreFlagged(report: seq<int>, asc: bool, n: nat, i: nat)
    requires i < n < |report|
    requires !PairOk(report[i], report[i + 1], asc)
    ensures i in BadIndices(report, asc, n) && i + 1 in BadIndices(report, asc, n)
  {
    var prefix := BadIndices(report, asc, n - 1);
    var flags := PairFlags(report, asc, n - 1);
    if i == n - 1 {
      BadPairFlagged(report, asc, i);
      assert i in flags && i + 1 in flags;
    } else {
      BadPairsAreFlagged(report, asc, n - 1, i);
      assert i in prefix && i + 1 in prefix;
    }
    assert i in prefix + flags && i + 1 in prefix + flags;
  }

  /** An unacceptable pair flags both of its indices. */
  lemma BadPairFlagged(report: seq<int>, asc: bool, i: nat)
    requires i + 1 < |report|
    requires !PairOk(report[i], report[i + 1], asc)
    ensures i in PairFlags(report, asc, i) && i + 1 in PairFlags(report, asc, i)
  {
    var flags := PairFlags(report, asc, i);
    assert flags[0] == i && flags[1] == i + 1;
  }

  /** The report without the level at index j (`Vec::remove`). */
  function RemoveAt(report: seq<int>, j: nat): (r: seq<int>)
    requires j < |report|
    ensures |r| == |report| - 1
    ensures forall k :: 0 <= k < j ==> r[k] == report[k]
    ensures forall k :: j <= k < |r| ==> r[k] == report[k + 1]
  {
    report[..j] + report[j + 1..]
  }

  /** What `is_report_safe` answers. */
  predicate ReportSafe(report: seq<int>)
  {
    if |report| <= 1 then true
    else
      var asc := Ascending(report);
      var bad := BadIndices(report, asc, |report| - 1);
      if |bad| == 0 then true
      else if |bad| > 4 then false
      else exists k :: 0 <= k < |bad| && StrictSafe(RemoveAt(report, bad[k]), asc)
  }

  /** A report that is strictly safe in its chosen direction is safe, and
      a report judged safe is strictly safe either as it is or once some
      single level is removed. */
  lemma ReportSafeMeaning(report: seq<int>)
    ensures |report| >= 2 && StrictSafe(report, Ascending(report)) ==> ReportSafe(report)
    ensures |report| >= 2 && ReportSafe(report) ==>
              || StrictSafe(report, Ascending(report))
              || exists j :: 0 <= j < |report| && StrictSafe(RemoveAt(report, j), Ascending(report))
  {
    if |report| >= 2 {
      NoBadIndicesIffPairsOk(report, Ascending(report), |report| - 1);
    }
  }

  /** Number of unacceptable pairs before position n. */
  function BadPairCount(report: seq<int>, asc: bool, n: nat): nat
    requires n < |report|
  {
    if n == 0 then 0
    else BadPairCount(report, asc, n - 1) + (if PairOk(report[n - 1], report[n], asc) then 0 else 1)
  }

  /** Every unacceptable pair flags two or four indices. */
  lemma {:induction false} BadIndicesLength(report: seq<int>, asc: bool, n: nat)
    requires n < |report|
    ensures 2 * BadPairCount(report, asc, n) <= |BadIndices(report, asc, n)| <= 4 * BadPairCount(report, asc, n)
  {
    if n > 0 {
      BadIndicesLength(report, asc, n - 1);
    }
  }

  /** A report with more than two unacceptable pairs is never safe, even
      when one removal would mend it (see the example below). */
  lemma {:induction false} ThreeBadPairsAreUnsafe(report: seq<int>)
    requires |report| >= 2
    requires BadPairCount(report, Ascending(report), |report| - 1) >= 3
    ensures !ReportSafe(report)
  {
    BadIndicesLength(report, Ascending(report), |report| - 1);
  }

  /** The first loop of `is_report_safe`: the rising and the falling
      pairs counted. */
  method CountDirections(report: seq<int>) returns (ascCount: nat, descCount: nat)
    requires |report| >= 2
    ensures ascCount == Rises(report) && descCount == Falls(report)
    ensures ascCount + descCount <= |report| - 1
  {
    ascCount, descCount := 0, 0;
    for k := 1 to |report|
      invariant ascCount == Rises(report[..k]) && descCount == Falls(report[..k])
      invariant ascCount + descCount <= k - 1
    {
      assert report[..k + 1][..k] == report[..k];
      if report[k] > report[k - 1] {
        ascCount := ascCount + 1;
      } else if report[k] < report[k - 1] {
        descCount := descCount + 1;
      }
    }
    assert report[..|report|] == report;
  }

  /** The second loop of `is_report_safe`: the flagged indices of every
      pair. */
  method FlagBadIndices(report: seq<int>, isAscending: bool) returns (badIndices: seq<nat>)
    requires |report| >= 2
    ensures badIndices == BadIndices(report, isAscending, |report| - 1)
    ensures |badIndices| == 0 <==> StrictSafe(report, isAscending)
  {
    badIndices := [];
    for i := 0 to |report| - 1
      invariant badIndices == BadIndices(report, isAscending, i)
    {
      var firstNumber := report[i];
      var secondNumber := report[i + 1];
      var pushed: seq<nat> := [];
      if isAscending && firstNumber > secondNumber {
        pushed := [i, i + 1];
      } else if !isAscending && secondNumber > firstNumber {
        pushed := [i, i + 1];
      }
      var difference := Abs(secondNumber - firstNumber);
      if difference < 1 || difference > 3 {
        pushed := pushed + [i, i + 1];
      }
      badIndices := badIndices + pushed;
    }
    NoBadIndicesIffPairsOk(report, isAscending, |report| - 1);
  }

  /** The last loop of `is_report_safe`: whether removing one of the
      flagged indices leaves a strictly safe report. */
  method TryRemovals(report: seq<int>, isAscending: bool, badIndices: seq<nat>) returns (ok: bool)
    requires |report| >= 2
    requires forall k :: 0 <= k < |badIndices| ==> badIndices[k] < |report|
    ensures ok <==> exists k :: 0 <= k < |badIndices| && StrictSafe(RemoveAt(report, badIndices[k]), isAscending)
  {
    for i := 0 to |badIndices|
      invariant forall k :: 0 <= k < i ==> !StrictSafe(RemoveAt(report, badIndices[k]), isAscending)
    {
      var reportCopy := RemoveAt(report, badIndices[i]);
      ok := IsReportSafeStrict(reportCopy, isAscending);
      if ok {
        return true;
      }
    }
    return false;
  }

  /** `is_report_safe`. */
  method IsReportSafe(report: seq<int>) returns (safe: bool)
    ensures safe == ReportSafe(report)
  {
    if |report| == 0 || |report| == 1 {
      return true;
    }
    var ascCount, descCount := CountDirections(report);
    var isAscending := ascCount > descCount;
    var badIndices := FlagBadIndices(report, isAscending);
    if |badIndices| == 0 {
      return true;
    }
    if |badIndices| > 4 {
      return false;
    }
    safe := TryRemovals(report, isAscending, badIndices);
  }

  // ---------------------------------------------------------------------
  // counting
  // ---------------------------------------------------------------------

  /** How many of the reports are safe. */
  function SafeCount(reports: seq<seq<int>>): (r: nat)
    ensures r <= |reports|
  {
    CountWhere(reports, ReportSafe)
  }

  /** The count is the size of the set of positions of safe reports. */
  lemma SafeCountIsSafePositions(reports: seq<seq<int>>)
    ensures SafeCount(reports) == |set i | 0 <= i < |reports| && ReportSafe(reports[i])|
  {
    CountWhereIsPositions(reports, ReportSafe);
    assert PositionsWhere(reports, ReportSafe) == set i | 0 <= i < |reports| && ReportSafe(reports[i]);
  }

  /** `read_reports`: the number of safe reports. */
  method ReadReports(reportList: seq<seq<int>>) returns (amount: nat)
    ensures amount == SafeCount(reportList) && amount <= |reportList|
  {
    amount := 0;
    for i := 0 to |reportList|
      invariant amount == SafeCount(reportList[..i])
    {
      assert reportList[..i + 1][..i] == reportList[..i];
      var result := IsReportSafe(reportList[i]);
      if result {
        amount := amount + 1;
      }
    }
    assert reportList[..|reportList|] == reportList;
  }

  /** `get_amount_of_safe_reports`. */
  method GetAmountOfSafeReports(input: string) returns (amount: nat)
    ensures amount == SafeCount(seq(|Lines(input)|, i requires 0 <= i < |Lines(input)| => ReadLineOfStrings(Lines(input)[i])))
    ensures amount <= |Lines(input)|
  {
    var reports := CreateReports(input);
    assert reports == seq(|Lines(input)|, i requires 0 <= i < |Lines(input)| => ReadLineOfStrings(Lines(input)[i]));
    amount := ReadReports(reports);
  }

  // ---------------------------------------------------------------------
  // examples
  // ---------------------------------------------------------------------

  /** The report [9, 8, 7, 6, 1] of the unit test is safe: its last step is too
      large, and removing the last level mends it. */
  lemma ExampleLastLevelRemoved()
    ensures ReportSafe([9, 8, 7, 6, 1])
  {
    var r := [9, 8, 7, 6, 1];
    assert Rises(r) == 0 by {
      assert r[..4] == [9, 8, 7, 6] && r[..4][..3] == [9, 8, 7];
      assert [9, 8, 7][..2] == [9, 8] && [9, 8][..1] == [9];
    }
    assert BadIndices(r, false, 4) == [3, 4] by {
      assert BadIndices(r, false, 3) == [];
    }
    assert StrictSafe(RemoveAt(r, 4), false) by {
      assert RemoveAt(r, 4) == [9, 8, 7, 6];
    }
    assert !Ascending(r);
    var bad := BadIndices(r, false, |r| - 1);
    assert 0 <= 1 < |bad| && StrictSafe(RemoveAt(r, bad[1]), false);
  }

  /** [1, 2, 3, 10, 4, 5] is judged unsafe although removing the 10 leaves
      the strictly safe [1, 2, 3, 4, 5]: the 10 spoils two pairs, and
      the source gives up at more than four flagged indices. */
  lemma ExampleOneRemovalMissed()
    ensures !ReportSafe([1, 2, 3, 10, 4, 5])
  {
    var r := [1, 2, 3, 10, 4, 5];
    assert Rises(r) == 4 && Falls(r) == 1 by {
      assert r[..5] == [1, 2, 3, 10, 4] && r[..5][..4] == [1, 2, 3, 10];
      assert [1, 2, 3, 10][..3] == [1, 2, 3] && [1, 2, 3][..2] == [1, 2] && [1, 2][..1] == [1];
    }
    assert |BadIndices(r, true, 5)| > 4 by {
      assert BadIndices(r, true, 2) == [];
      assert BadIndices(r, true, 3) == [2, 3];
      assert BadIndices(r, true, 4) == [2, 3, 3, 4, 3, 4];
    }
  }

  /** Removing the 10 from [1, 2, 3, 10, 4, 5] does leave a strictly safe
      report. */
  lemma ExampleRemovalMends()
    ensures StrictSafe(RemoveAt([1, 2, 3, 10, 4, 5], 3), true)
  {
    assert RemoveAt([1, 2, 3, 10, 4, 5], 3) == [1, 2, 3, 4, 5];
  }
}
