/** Day 5: page ordering rules "a|b" say that page a comes before page b;
    updates that break a rule are reordered by a swap sort and their
    middle pages summed. Pages are compared as text. */
module Day5 {
  import opened Text

  /** A rule: `pageBefore` must be printed before `pageAfter`. */
  datatype PageOrder<P> = PageOrder(pageBefore: P, pageAfter: P)

  // ---------------------------------------------------------------------
  // reading
  // ---------------------------------------------------------------------

  /** `read_page_numbers`: the text before the first '|' and the text
      between it and the next '|'; None (the `unwrap` panic) when the line
      has no '|'. */
  function ReadPageNumbers(line: string): (r: Option<PageOrder<string>>)
    ensures r.Some? ==> '|' !in r.value.pageBefore && '|' !in r.value.pageAfter
  {
    var numbersInLine := Split(line, '|');
    if |numbersInLine| < 2 then None else Some(PageOrder(numbersInLine[0], numbersInLine[1]))
  }

  /** A rule fails to read exactly when the line has no '|'. */
  lemma ReadPageNumbersFails(line: string)
    ensures ReadPageNumbers(line).None? <==> '|' !in line
  {
    if '|' !in line {
      SplitWithoutSeparator(line, '|');
    } else {
      JoinOfSplit(line, '|');
    }
  }

  /** A rule written as "a|b" reads back as the rule, whatever follows a
      further '|'. */
  lemma ReadPageNumbersOfRule(before: string, after: string, rest: string)
    requires '|' !in before && '|' !in after
    ensures ReadPageNumbers(before + "|" + after) == Some(PageOrder(before, after))
    ensures ReadPageNumbers(before + "|" + after + "|" + rest) == Some(PageOrder(before, after))
  {
    SplitAtSeparator(before, '|', after);
    SplitWithoutSeparator(after, '|');
    assert before + "|" + after == before + ['|'] + after;
    var line := before + "|" + after + "|" + rest;
    assert line == before + ['|'] + (after + ['|'] + rest);
    SplitAtSeparator(before, '|', after + ['|'] + rest);
    SplitAtSeparator(after, '|', rest);
  }

  /** `read_page_number_list`: every comma-separated field, in order. */
  function ReadPageNumberList(line: string): (r: seq<string>)
    ensures |r| >= 1
    ensures forall i :: 0 <= i < |r| ==> ',' !in r[i]
    ensures Join(r, ',') == line
  {
    JoinOfSplit(line, ',');
    Split(line, ',')
  }

  /** Fields joined by commas read back as the same fields. */
  lemma {:induction false} ReadPageNumberListOfJoin(pages: seq<string>)
    requires |pages| >= 1
    requires forall i :: 0 <= i < |pages| ==> ',' !in pages[i]
    ensures ReadPageNumberList(Join(pages, ',')) == pages
  {
    SplitOfJoin(pages, ',');
  }

  // ---------------------------------------------------------------------
  // the middle page
  // ---------------------------------------------------------------------

  /** `get_middle_page_number_vec`: the page at index (len - 1) / 2, which
      has as many pages after it as before it, or one more; None when it
      does not parse. An empty list would underflow `len() - 1`. */
  function GetMiddlePageNumberVec(line: seq<string>): (r: Option<int>)
    requires |line| >= 1
    ensures var k := (|line| - 1) / 2;
            && 0 <= k < |line|
            && (|line| - 1 - k == k || |line| - 1 - k == k + 1)
            && r == ParseInt(line[k])
  {
    var middleIndex := (|line| - 1) / 2;
    ParseInt(line[middleIndex])
  }

  /** `get_middle_page_number`: the middle field of a comma-separated
      line; a line without a comma is its own middle. */
  function GetMiddlePageNumber(line: string): (r: Option<int>)
    ensures ',' !in line ==> r == ParseInt(line)
  {
    assert ',' !in line ==> ReadPageNumberList(line) == [line] by {
      if ',' !in line { SplitWithoutSeparator(line, ','); }
    }
    GetMiddlePageNumberVec(ReadPageNumberList(line))
  }

  /** A list of written pages yields its middle page. */
  lemma MiddleOfWrittenPages(pages: seq<int>)
    requires |pages| >= 1
    ensures GetMiddlePageNumberVec(seq(|pages|, i requires 0 <= i < |pages| => IntToString(pages[i])))
            == Some(pages[(|pages| - 1) / 2])
  {
    ParseIntOfIntToString(pages[(|pages| - 1) / 2]);
  }

  /** A line of pages written with commas between them yields its middle
      page. */
  lemma MiddleOfWrittenLine(pages: seq<int>)
    requires |pages| >= 1
    ensures GetMiddlePageNumber(Join(seq(|pages|, i requires 0 <= i < |pages| => IntToString(pages[i])), ','))
            == Some(pages[(|pages| - 1) / 2])
  {
    var fields := seq(|pages|, i requires 0 <= i < |pages| => IntToString(pages[i]));
    forall i | 0 <= i < |fields| ensures ',' !in fields[i] {
      IntToStringShape(pages[i]);
    }
    ReadPageNumberListOfJoin(fields);
    MiddleOfWrittenPages(pages);
  }

  // ---------------------------------------------------------------------
  // the rule check
  // ---------------------------------------------------------------------

  /** Some rule says x is printed before y. */
  predicate Precedes<T(==)>(rules: seq<PageOrder<T>>, x: T, y: T)
  {
    PageOrder(x, y) in rules
  }

  /** No page is followed by a page that a rule puts before it. */
  predicate RulesHold<T(==)>(rules: seq<PageOrder<T>>, numberList: seq<T>)
  {
    forall i, j :: 0 <= i < j < |numberList| ==> !Precedes(rules, numberList[j], numberList[i])
  }

  /** `test_numbers_for_rules`: true iff no rule has its `pageAfter` at some
      index and its `pageBefore` at a later one. An empty list would
      underflow `len() - 1`. */
  method TestNumbersForRules<T(==)>(rules: seq<PageOrder<T>>, numberList: seq<T>) returns (ok: bool)
    requires |numberList| >= 1
    ensures ok <==> RulesHold(rules, numberList)
  {
    for i := 0 to |numberList| - 1
      invariant forall i', j :: 0 <= i' < i && i' < j < |numberList| ==> !Precedes(rules, numberList[j], numberList[i'])
    {
      for j := i + 1 to |numberList|
        invariant forall j' :: i < j' < j ==> !Precedes(rules, numberList[j'], numberList[i])
      {
        var firstNumber := numberList[i];
        var secondNumber := numberList[j];
        for k := 0 to |rules|
          invariant PageOrder(secondNumber, firstNumber) !in rules[..k]
        {
          if rules[k].pageAfter == firstNumber && rules[k].pageBefore == secondNumber {
            return false;
          }
        }
      }
    }
    return true;
  }

  // ---------------------------------------------------------------------
  // the swap sort
  // ---------------------------------------------------------------------

  /** The first k rules tried in turn on the pair (i, j): each one whose
      `pageAfter` is at i and whose `pageBefore` is at j swaps them. */
  function RuleSwaps<T(==)>(rules: seq<PageOrder<T>>, s: seq<T>, i: nat, j: nat, k: nat): (r: seq<T>)
    requires i < |s| && j < |s| && k <= |rules|
    ensures |r| == |s|
  {
    if k == 0 then s
    else
      var t := RuleSwaps(rules, s, i, j, k - 1);
      if rules[k - 1].pageAfter == t[i] && rules[k - 1].pageBefore == t[j] then Swap(t, i, j) else t
  }

  /** The pairs (i, i + 1), ..., (i, j - 1) in turn. */
  function InnerPass<T(==)>(rules: seq<PageOrder<T>>, s: seq<T>, i: nat, j: nat): (r: seq<T>)
    requires i < j <= |s|
    ensures |r| == |s|
    decreases j
  {
    if j == i + 1 then s
    else RuleSwaps(rules, InnerPass(rules, s, i, j - 1), i, j - 1, |rules|)
  }

  /** The outer passes for i = 0, ..., n - 1. */
  function OuterPasses<T(==)>(rules: seq<PageOrder<T>>, s: seq<T>, n: nat): (r: seq<T>)
    requires n < |s|
    ensures |r| == |s|
  {
    if n == 0 then s else InnerPass(rules, OuterPasses(rules, s, n - 1), n - 1, |s|)
  }

  /** What `bubble_sort_pages` leaves in the list. */
  function BubbleSorted<T(==)>(rules: seq<PageOrder<T>>, s: seq<T>): (r: seq<T>)
    requires |s| >= 1
    ensures |r| == |s|
  {
    OuterPasses(rules, s, |s| - 1)
  }

  /** Whatever the rules, the swap sort only rearranges the pages. */
  lemma BubbleSortedPermutes<T(!new)>(rules: seq<PageOrder<T>>, s: seq<T>)
    requires |s| >= 1
    ensures multiset(BubbleSorted(rules, s)) == multiset(s)
  {
    OuterPassesPermutes(rules, s, |s| - 1);
    PermutationMultiset(BubbleSorted(rules, s), s);
  }

  lemma {:induction false} RuleSwapsPermutes<T(!new)>(rules: seq<PageOrder<T>>, s: seq<T>, i: nat, j: nat, k: nat)
    requires i < |s| && j < |s| && k <= |rules|
    ensures Permutation(RuleSwaps(rules, s, i, j, k), s)
  {
    if k > 0 {
      RuleSwapsPermutes(rules, s, i, j, k - 1);
      RuleStepPermutes(rules, s, i, j, k);
    }
  }

  lemma {:induction false} RuleStepPermutes<T(!new)>(rules: seq<PageOrder<T>>, s: seq<T>, i: nat, j: nat, k: nat)
    requires i < |s| && j < |s| && 0 < k <= |rules|
    requires Permutation(RuleSwaps(rules, s, i, j, k - 1), s)
    ensures Permutation(RuleSwaps(rules, s, i, j, k), s)
  {
    var t := RuleSwaps(rules, s, i, j, k - 1);
    if rules[k - 1].pageAfter == t[i] && rules[k - 1].pageBefore == t[j] {
      SwapPermutes(t, i, j);
      PermutationTrans(Swap(t, i, j), t, s);
    }
  }

  lemma {:induction false} InnerPassPermutes<T(!new)>(rules: seq<PageOrder<T>>, s: seq<T>, i: nat, j: nat)
    requires i < j <= |s|
    ensures Permutation(InnerPass(rules, s, i, j), s)
    decreases j
  {
    if j > i + 1 {
      InnerPassPermutes(rules, s, i, j - 1);
      InnerStepPermutes(rules, s, i, j);
    }
  }

  lemma {:induction false} InnerStepPermutes<T(!new)>(rules: seq<PageOrder<T>>, s: seq<T>, i: nat, j: nat)
    requires i + 1 < j <= |s| && Permutation(InnerPass(rules, s, i, j - 1), s)
    ensures Permutation(InnerPass(rules, s, i, j), s)
  {
    var t := InnerPass(rules, s, i, j - 1);
    RuleSwapsPermutes(rules, t, i, j - 1, |rules|);
    PermutationTrans(RuleSwaps(rules, t, i, j - 1, |rules|), t, s);
  }

  lemma {:induction false} OuterPassesPermutes<T(!new)>(rules: seq<PageOrder<T>>, s: seq<T>, n: nat)
    requires n < |s|
    ensures Permutation(OuterPasses(rules, s, n), s)
  {
    if n > 0 {
      OuterPassesPermutes(rules, s, n - 1);
      OuterStepPermutes(rules, s, n);
    }
  }

  lemma {:induction false} OuterStepPermutes<T(!new)>(rules: seq<PageOrder<T>>, s: seq<T>, n: nat)
    requires 0 < n < |s| && Permutation(OuterPasses(rules, s, n - 1), s)
    ensures Permutation(OuterPasses(rules, s, n), s)
  {
    var t := OuterPasses(rules, s, n - 1);
    InnerPassPermutes(rules, t, n - 1, |s|);
    PermutationTrans(InnerPass(rules, t, n - 1, |s|), t, s);
  }

  /** `bubble_sort_pages`: for every pair i < j and every rule in order, a
      rule whose `pageAfter` is at i and whose `pageBefore` is at j swaps
      them in place. An empty list would underflow `len() - 1`. */
  method BubbleSortPages<T(==)>(rules: seq<PageOrder<T>>, numberList: array<T>)
    requires numberList.Length >= 1
    modifies numberList
    ensures numberList[..] == BubbleSorted(rules, old(numberList[..]))
  {
    ghost var s := numberList[..];
    for i := 0 to numberList.Length - 1
      invariant numberList[..] == OuterPasses(rules, s, i)
    {
      ComparePairs(rules, numberList, i);
    }
  }

  /** One outer pass: the pairs (i, j) for j = i + 1, ... in turn. */
  method ComparePairs<T(==)>(rules: seq<PageOrder<T>>, numberList: array<T>, i: nat)
    requires i < numberList.Length
    modifies numberList
    ensures numberList[..] == InnerPass(rules, old(numberList[..]), i, numberList.Length)
  {
    ghost var start := numberList[..];
    for j := i + 1 to numberList.Length
      invariant numberList[..] == InnerPass(rules, start, i, j)
    {
      ghost var v := numberList[..];
      ApplyRules(rules, numberList, i, j);
      assert InnerPass(rules, start, i, j + 1) == RuleSwaps(rules, v, i, j, |rules|);
    }
  }

  /** Every rule in turn on the pair (i, j). */
  method ApplyRules<T(==)>(rules: seq<PageOrder<T>>, numberList: array<T>, i: nat, j: nat)
    requires i < numberList.Length && j < numberList.Length
    modifies numberList
    ensures numberList[..] == RuleSwaps(rules, old(numberList[..]), i, j, |rules|)
  {
    ghost var before := numberList[..];
    for k := 0 to |rules|
      invariant numberList[..] == RuleSwaps(rules, before, i, j, k)
    {
      if rules[k].pageAfter == numberList[i] && rules[k].pageBefore == numberList[j] {
        ghost var t := numberList[..];
        numberList[i], numberList[j] := numberList[j], numberList[i];
        assert numberList[..] == Swap(t, i, j);
      }
    }
  }

  /** The rules order the given pages strictly: no page before itself,
      and a page before a page before a third is before the third. */
  predicate StrictOrderOn<T(==)>(rules: seq<PageOrder<T>>, pages: set<T>)
  {
    && (forall x {:trigger Precedes(rules, x, x)} :: x in pages ==> !Precedes(rules, x, x))
    && (forall x, y, z {:trigger Precedes(rules, x, y), Precedes(rules, y, z)} ::
          x in pages && y in pages && z in pages && Precedes(rules, x, y) && Precedes(rules, y, z)
          ==> Precedes(rules, x, z))
  }

  /** Every page of v is one of the given pages. */
  predicate PagesIn<T(==)>(v: seq<T>, pages: set<T>)
  {
    forall m :: 0 <= m < |v| ==> v[m] in pages
  }

  /** Some of the first k rules asks for the pair (i, j) to be swapped. */
  predicate SwapAsked<T(==)>(rules: seq<PageOrder<T>>, t: seq<T>, i: nat, j: nat, k: nat)
    requires i < |t| && j < |t| && k <= |rules|
  {
    PageOrder(t[j], t[i]) in rules[..k]
  }

  /** Under a strict order the rules swap a pair at most once: exactly when
      some rule asks for it. */
  lemma {:induction false} RuleSwapsOnce<T>(rules: seq<PageOrder<T>>, t: seq<T>, i: nat, j: nat, k: nat)
    requires i < j < |t| && k <= |rules|
    requires !(Precedes(rules, t[i], t[j]) && Precedes(rules, t[j], t[i]))
    ensures RuleSwaps(rules, t, i, j, k) == if SwapAsked(rules, t, i, j, k) then Swap(t, i, j) else t
  {
    if k > 0 {
      RuleSwapsOnce(rules, t, i, j, k - 1);
      var u := RuleSwaps(rules, t, i, j, k - 1);
      var rule := rules[k - 1];
      assert rules[..k] == rules[..k - 1] + [rule];
      if SwapAsked(rules, t, i, j, k - 1) {
        assert Precedes(rules, t[j], t[i]);
      } else if rule.pageAfter == t[i] && rule.pageBefore == t[j] {
        assert SwapAsked(rules, t, i, j, k);
      } else {
        assert !SwapAsked(rules, t, i, j, k);
      }
    }
  }

  /** Positions before i are sorted: nothing after them is ruled before them. */
  predicate SortedBefore<T(==)>(rules: seq<PageOrder<T>>, v: seq<T>, i: nat)
  {
    forall k, m :: 0 <= k < i && k < m < |v| ==> !Precedes(rules, v[m], v[k])
  }

  /** Position i holds a page that no rule puts after any page at i + 1 .. j - 1. */
  predicate MinimalUpTo<T(==)>(rules: seq<PageOrder<T>>, v: seq<T>, i: nat, j: nat)
    requires i < |v| && j <= |v|
  {
    forall m :: i < m < j ==> !Precedes(rules, v[m], v[i])
  }

  /** A strict order chains and is asymmetric. */
  lemma OrderFacts<T>(rules: seq<PageOrder<T>>, pages: set<T>, x: T, y: T, z: T)
    requires StrictOrderOn(rules, pages) && x in pages && y in pages && z in pages
    ensures Precedes(rules, x, y) && Precedes(rules, y, z) ==> Precedes(rules, x, z)
    ensures !(Precedes(rules, x, y) && Precedes(rules, y, x))
  {
  }

  /** The swaps only move pages around, so no new page appears. */
  lemma {:induction false} RuleSwapsKeepsPages<T>(rules: seq<PageOrder<T>>, s: seq<T>, i: nat, j: nat, k: nat, pages: set<T>)
    requires i < |s| && j < |s| && k <= |rules| && PagesIn(s, pages)
    ensures PagesIn(RuleSwaps(rules, s, i, j, k), pages)
  {
    if k > 0 {
      RuleSwapsKeepsPages(rules, s, i, j, k - 1, pages);
    }
  }

  lemma {:induction false} InnerPassKeepsPages<T>(rules: seq<PageOrder<T>>, s: seq<T>, i: nat, j: nat, pages: set<T>)
    requires i < j <= |s| && PagesIn(s, pages)
    ensures PagesIn(InnerPass(rules, s, i, j), pages)
    decreases j
  {
    if j > i + 1 {
      InnerPassKeepsPages(rules, s, i, j - 1, pages);
      RuleSwapsKeepsPages(rules, InnerPass(rules, s, i, j - 1), i, j - 1, |rules|, pages);
    }
  }

  lemma {:induction false} OuterPassesKeepPages<T>(rules: seq<PageOrder<T>>, s: seq<T>, n: nat, pages: set<T>)
    requires n < |s| && PagesIn(s, pages)
    ensures PagesIn(OuterPasses(rules, s, n), pages)
  {
    if n > 0 {
      OuterPassesKeepPages(rules, s, n - 1, pages);
      InnerPassKeepsPages(rules, OuterPasses(rules, s, n - 1), n - 1, |s|, pages);
    }
  }

  /** One pair (i, j - 1) keeps the sorted prefix and extends the minimum
      at i by position j - 1. */
  lemma {:induction false} PairStep<T>(rules: seq<PageOrder<T>>, pages: set<T>, v: seq<T>, i: nat, j: nat)
    requires i + 1 < j <= |v| && StrictOrderOn(rules, pages) && PagesIn(v, pages)
    requires SortedBefore(rules, v, i) && MinimalUpTo(rules, v, i, j - 1)
    ensures var u := RuleSwaps(rules, v, i, j - 1, |rules|);
            SortedBefore(rules, u, i) && MinimalUpTo(rules, u, i, j)
  {
    var p := j - 1;
    OrderFacts(rules, pages, v[i], v[p], v[i]);
    RuleSwapsOnce(rules, v, i, p, |rules|);
    var u := RuleSwaps(rules, v, i, p, |rules|);
    if SwapAsked(rules, v, i, p, |rules|) {
      assert rules[..|rules|] == rules;
      assert Precedes(rules, v[p], v[i]);
      forall m | i < m < j ensures !Precedes(rules, u[m], u[i]) {
        OrderFacts(rules, pages, u[m], v[p], v[i]);
      }
      forall k, m | 0 <= k < i && k < m < |u| ensures !Precedes(rules, u[m], u[k]) {
        assert u[m] == v[m] || (m == i && u[m] == v[p]) || (m == p && u[m] == v[i]);
      }
    } else {
      assert rules[..|rules|] == rules;
    }
  }

  lemma {:induction false} InnerPassSorts<T>(rules: seq<PageOrder<T>>, pages: set<T>, v: seq<T>, i: nat, j: nat)
    requires i < j <= |v| && StrictOrderOn(rules, pages) && PagesIn(v, pages)
    requires SortedBefore(rules, v, i)
    ensures var u := InnerPass(rules, v, i, j);
            SortedBefore(rules, u, i) && MinimalUpTo(rules, u, i, j)
    decreases j
  {
    if j > i + 1 {
      InnerPassSorts(rules, pages, v, i, j - 1);
      InnerPassStep(rules, pages, v, i, j);
    } else {
      assert InnerPass(rules, v, i, j) == v;
    }
  }

  lemma {:induction false} InnerPassStep<T>(rules: seq<PageOrder<T>>, pages: set<T>, v: seq<T>, i: nat, j: nat)
    requires i + 1 < j <= |v| && StrictOrderOn(rules, pages) && PagesIn(v, pages)
    requires var w := InnerPass(rules, v, i, j - 1);
             SortedBefore(rules, w, i) && MinimalUpTo(rules, w, i, j - 1)
    ensures var u := InnerPass(rules, v, i, j);
            SortedBefore(rules, u, i) && MinimalUpTo(rules, u, i, j)
  {
    var w := InnerPass(rules, v, i, j - 1);
    InnerPassKeepsPages(rules, v, i, j - 1, pages);
    PairStep(rules, pages, w, i, j);
    assert InnerPass(rules, v, i, j) == RuleSwaps(rules, w, i, j - 1, |rules|);
  }

  /** A whole outer pass at i extends the sorted prefix by one. */
  lemma {:induction false} OuterPassSorts<T>(rules: seq<PageOrder<T>>, pages: set<T>, v: seq<T>, n: nat)
    requires 0 < n <= |v| && StrictOrderOn(rules, pages) && PagesIn(v, pages) && SortedBefore(rules, v, n - 1)
    ensures SortedBefore(rules, InnerPass(rules, v, n - 1, |v|), n)
  {
    InnerPassSorts(rules, pages, v, n - 1, |v|);
    ExtendSorted(rules, InnerPass(rules, v, n - 1, |v|), n);
  }

  lemma ExtendSorted<T>(rules: seq<PageOrder<T>>, u: seq<T>, n: nat)
    requires 0 < n <= |u| && SortedBefore(rules, u, n - 1) && MinimalUpTo(rules, u, n - 1, |u|)
    ensures SortedBefore(rules, u, n)
  {
  }

  lemma {:induction false} OuterPassesSort<T>(rules: seq<PageOrder<T>>, pages: set<T>, s: seq<T>, n: nat)
    requires n < |s| && StrictOrderOn(rules, pages) && PagesIn(s, pages)
    ensures SortedBefore(rules, OuterPasses(rules, s, n), n)
  {
    if n > 0 {
      var v := OuterPasses(rules, s, n - 1);
      OuterPassesSort(rules, pages, s, n - 1);
      OuterPassesKeepPages(rules, s, n - 1, pages);
      OuterPassSorts(rules, pages, v, n);
    }
  }

  /** When the rules order the pages of an update strictly, the swap sort
      leaves it in an order that passes the rule check, and it is a
      permutation of the update. */
  lemma BubbleSortedPassesRules<T(!new)>(rules: seq<PageOrder<T>>, s: seq<T>)
    requires |s| >= 1 && StrictOrderOn(rules, (set x | x in s))
    ensures multiset(BubbleSorted(rules, s)) == multiset(s)
    ensures RulesHold(rules, BubbleSorted(rules, s))
  {
    OuterPassesSort(rules, (set x | x in s), s, |s| - 1);
    BubbleSortedPermutes(rules, s);
  }

  // ---------------------------------------------------------------------
  // the whole puzzle
  // ---------------------------------------------------------------------

  /** A line that trims to nothing separates the rules from the updates. */
  predicate Blank(line: string)
  {
    Trim(line) == ""
  }

  /** The index of the first blank line, or the number of lines. */
  function FirstBlank(lines: seq<string>): (k: nat)
    ensures k <= |lines|
    ensures forall i :: 0 <= i < k ==> !Blank(lines[i])
    ensures k < |lines| ==> Blank(lines[k])
  {
    FirstBlankFrom(lines, 0)
  }

  /** The index of the first blank line at or after `from`. */
  function FirstBlankFrom(lines: seq<string>, from: nat): (k: nat)
    requires from <= |lines|
    ensures from <= k <= |lines|
    ensures forall i :: from <= i < k ==> !Blank(lines[i])
    ensures k < |lines| ==> Blank(lines[k])
    decreases |lines| - from
  {
    if from == |lines| then from
    else if Blank(lines[from]) then from
    else FirstBlankFrom(lines, from + 1)
  }

  /** The rule lines: everything before the first blank line. */
  function RuleSection(lines: seq<string>): (r: seq<string>)
    ensures forall i :: 0 <= i < |r| ==> !Blank(r[i])
  {
    lines[..FirstBlank(lines)]
  }

  /** The non-blank lines, in order. */
  function NonBlank(lines: seq<string>): (r: seq<string>)
    ensures |r| <= |lines|
    decreases |lines|
  {
    if |lines| == 0 then []
    else
      var last := lines[|lines| - 1];
      NonBlank(lines[..|lines| - 1]) + (if Blank(last) then [] else [last])
  }

  /** The update lines: the non-blank lines from the first blank one on. */
  function UpdateSection(lines: seq<string>): seq<string>
  {
    NonBlank(lines[FirstBlank(lines)..])
  }

  /** Every rule line read; None when one of them has no '|'. */
  function ReadRules(ruleLines: seq<string>): (r: Option<seq<PageOrder<string>>>)
    ensures r.Some? ==> |r.value| == |ruleLines|
    decreases |ruleLines|
  {
    if |ruleLines| == 0 then Some([])
    else
      var n := |ruleLines| - 1;
      match (ReadRules(ruleLines[..n]), ReadPageNumbers(ruleLines[n]))
      case (Some(rules), Some(rule)) => Some(rules + [rule])
      case (None, _) => assert ruleLines[..n] == ruleLines[..n]; None
      case (_, None) => None
  }

  /** Every update line read as its list of pages. */
  function ReadUpdates(updateLines: seq<string>): (r: seq<seq<string>>)
    ensures |r| == |updateLines|
    decreases |updateLines|
  {
    if |updateLines| == 0 then []
    else
      var n := |updateLines| - 1;
      ReadUpdates(updateLines[..n]) + [ReadPageNumberList(updateLines[n])]
  }

  /** Every update holds at least one page, as a comma split always does. */
  predicate NonEmptyUpdates(updates: seq<seq<string>>)
  {
    forall i :: 0 <= i < |updates| ==> |updates[i]| >= 1
  }

  /** The updates that break a rule, in order. */
  function Incorrect(rules: seq<PageOrder<string>>, updates: seq<seq<string>>): (r: seq<seq<string>>)
    ensures |r| <= |updates|
    decreases |updates|
  {
    if |updates| == 0 then []
    else
      var last := updates[|updates| - 1];
      Incorrect(rules, updates[..|updates| - 1]) + (if RulesHold(rules, last) then [] else [last])
  }

  /** The sum of the values; None when one of them is missing, as the
      `unwrap` of a page that does not parse gives up. */
  function SumPresent(xs: seq<Option<int>>): (r: Option<int>)
    ensures r.Some? <==> forall i :: 0 <= i < |xs| ==> xs[i].Some?
    decreases |xs|
  {
    if |xs| == 0 then Some(0)
    else
      var n := |xs| - 1;
      match (SumPresent(xs[..n]), xs[n])
      case (Some(sum), Some(x)) => Some(sum + x)
      case (None, _) => assert xs[..n] == xs[..n]; None
      case (_, None) => None
  }

  lemma SumPresentStep(xs: seq<Option<int>>, k: nat, sum: int, x: int)
    requires k < |xs| && SumPresent(xs[..k]) == Some(sum) && xs[k] == Some(x)
    ensures SumPresent(xs[..k + 1]) == Some(sum + x)
  {
    assert xs[..k + 1][..k] == xs[..k];
  }

  /** The middle page of each update once sorted. */
  function SortedMiddles(rules: seq<PageOrder<string>>, updates: seq<seq<string>>): (r: seq<Option<int>>)
    requires NonEmptyUpdates(updates)
    ensures |r| == |updates|
  {
    seq(|updates|, i requires 0 <= i < |updates| => GetMiddlePageNumberVec(BubbleSorted(rules, updates[i])))
  }

  /** What `get_sum_of_correct_page_lists` computes: the rules above the
      first blank line, the updates below it, and the sum of the middle
      pages of the updates that break a rule once they are sorted. */
  function SumOfCorrectedUpdates(input: string): Option<int>
  {
    var lines := Lines(input);
    match ReadRules(RuleSection(lines))
    case None => None
    case Some(rules) =>
      var updates := ReadUpdates(UpdateSection(lines));
      IncorrectAreNonEmpty(rules, updates);
      SumPresent(SortedMiddles(rules, Incorrect(rules, updates)))
  }

  /** Rules are read one to one, and reading fails exactly when one rule
      line does not read. */
  lemma {:induction false} ReadRulesMeaning(ruleLines: seq<string>)
    ensures ReadRules(ruleLines).Some? <==> forall i :: 0 <= i < |ruleLines| ==> ReadPageNumbers(ruleLines[i]).Some?
    ensures ReadRules(ruleLines).Some? ==>
              forall i :: 0 <= i < |ruleLines| ==> Some(ReadRules(ruleLines).value[i]) == ReadPageNumbers(ruleLines[i])
    decreases |ruleLines|
  {
    if |ruleLines| > 0 {
      ReadRulesMeaning(ruleLines[..|ruleLines| - 1]);
    }
  }

  /** Update i is the comma split of update line i. */
  lemma {:induction false} ReadUpdatesMeaning(updateLines: seq<string>)
    ensures NonEmptyUpdates(ReadUpdates(updateLines))
    ensures forall i :: 0 <= i < |updateLines| ==> ReadUpdates(updateLines)[i] == ReadPageNumberList(updateLines[i])
    decreases |updateLines|
  {
    if |updateLines| > 0 {
      ReadUpdatesMeaning(updateLines[..|updateLines| - 1]);
    }
  }

  /** An update that breaks a rule has at least two pages. */
  lemma {:induction false} IncorrectAreNonEmpty(rules: seq<PageOrder<string>>, updates: seq<seq<string>>)
    ensures forall i :: 0 <= i < |Incorrect(rules, updates)| ==> |Incorrect(rules, updates)[i]| >= 2
    ensures NonEmptyUpdates(Incorrect(rules, updates))
    decreases |updates|
  {
    if |updates| > 0 {
      IncorrectAreNonEmpty(rules, updates[..|updates| - 1]);
    }
  }

  /** `get_sum_of_correct_page_lists`: reads the rules until the first
      blank line and the updates after it, keeps the updates that fail the
      rule check, sorts each of them and sums their middle pages. The
      `unwrap` panics (a rule line without '|', a middle page that does
      not parse) are None. */
  method GetSumOfCorrectPageLists(input: string) returns (r: Option<int>)
    ensures r == SumOfCorrectedUpdates(input)
  {
    var lines := Lines(input);
    var read := ReadSections(lines);
    ReadSectionLinesMeaning(lines);
    if read.None? {
      return None;
    }
    var pageOrderRules := read.value.rules;
    var numberListVector := read.value.updates;
    ReadUpdatesMeaning(UpdateSection(lines));
    var incorrectlyOrderedUpdates := KeepIncorrect(pageOrderRules, numberListVector);
    IncorrectAreNonEmpty(pageOrderRules, numberListVector);
    r := SumSortedMiddles(pageOrderRules, incorrectlyOrderedUpdates);
  }

  /** The state of the line loop of `get_sum_of_correct_page_lists`. */
  datatype Sections = Sections(ruleMode: bool, rules: seq<PageOrder<string>>, updates: seq<seq<string>>)

  /** One turn of the line loop: a blank line ends the rule section, a
      rule line is read as a rule (None when it has no '|') and an update
      line as its list of pages. */
  function ReadSectionLine(st: Sections, line: string): Option<Sections>
  {
    if Trim(line) == "" then Some(st.(ruleMode := false))
    else if st.ruleMode then
      match ReadPageNumbers(line)
      case None => None
      case Some(rule) => Some(st.(rules := st.rules + [rule]))
    else Some(st.(updates := st.updates + [ReadPageNumberList(line)]))
  }

  /** The line loop run over the given lines; None once a rule line fails. */
  function ReadSectionLines(lines: seq<string>): Option<Sections>
    decreases |lines|
  {
    if |lines| == 0 then Some(Sections(true, [], []))
    else
      match ReadSectionLines(lines[..|lines| - 1])
      case None => None
      case Some(st) => ReadSectionLine(st, lines[|lines| - 1])
  }

  /** The line loop of `get_sum_of_correct_page_lists`. */
  method ReadSections(lines: seq<string>) returns (r: Option<Sections>)
    ensures r == ReadSectionLines(lines)
  {
    var ruleMode := true;
    var pageOrderRules: seq<PageOrder<string>> := [];
    var numberListVector: seq<seq<string>> := [];
    for i := 0 to |lines|
      invariant ReadSectionLines(lines[..i]) == Some(Sections(ruleMode, pageOrderRules, numberListVector))
    {
      assert lines[..i + 1][..i] == lines[..i];
      var line := lines[i];
      if Trim(line) == "" {
        ruleMode := false;
      } else if ruleMode {
        var rule := ReadPageNumbers(line);
        if rule.None? {
          FailedReadStays(lines, i + 1);
          return None;
        }
        pageOrderRules := pageOrderRules + [rule.value];
      } else {
        numberListVector := numberListVector + [ReadPageNumberList(line)];
      }
    }
    assert lines[..|lines|] == lines;
    return Some(Sections(ruleMode, pageOrderRules, numberListVector));
  }

  /** Once a rule line has failed, the loop fails. */
  lemma {:induction false} FailedReadStays(lines: seq<string>, i: nat)
    requires i <= |lines| && ReadSectionLines(lines[..i]).None?
    ensures ReadSectionLines(lines).None?
    decreases |lines| - i
  {
    if i < |lines| {
      assert lines[..i + 1][..i] == lines[..i];
      FailedReadStays(lines, i + 1);
    } else {
      assert lines[..i] == lines;
    }
  }

  /** How the sections change when one more line is read. */
  lemma SectionsStep(lines: seq<string>)
    requires |lines| > 0
    ensures var n := |lines| - 1;
            var p := lines[..n];
            && (FirstBlank(p) < n ==>
                  && FirstBlank(lines) == FirstBlank(p)
                  && RuleSection(lines) == RuleSection(p)
                  && UpdateSection(lines) == UpdateSection(p) + (if Blank(lines[n]) then [] else [lines[n]]))
            && (FirstBlank(p) == n && Blank(lines[n]) ==>
                  FirstBlank(lines) == n && RuleSection(lines) == p && UpdateSection(lines) == [])
            && (FirstBlank(p) == n && !Blank(lines[n]) ==>
                  FirstBlank(lines) == |lines| && RuleSection(lines) == lines && UpdateSection(lines) == [])
  {
    var n := |lines| - 1;
    var p := lines[..n];
    var k := FirstBlank(p);
    if k < n {
      SectionsStepAfterBlank(lines, k);
    } else if Blank(lines[n]) {
      FirstBlankIs(lines, n);
      assert NonBlank(lines[n..]) == NonBlank([]) + [];
    } else {
      assert lines[..|lines|] == lines;
    }
  }

  /** A line read after the first blank one joins the update section. */
  lemma SectionsStepAfterBlank(lines: seq<string>, k: nat)
    requires |lines| > 0 && k == FirstBlank(lines[..|lines| - 1]) && k < |lines| - 1
    ensures FirstBlank(lines) == k
    ensures RuleSection(lines) == RuleSection(lines[..|lines| - 1])
    ensures var n := |lines| - 1;
            UpdateSection(lines) == UpdateSection(lines[..n]) + (if Blank(lines[n]) then [] else [lines[n]])
  {
    var n := |lines| - 1;
    var p := lines[..n];
    FirstBlankIs(lines, k);
    assert lines[k..] == p[k..] + [lines[n]];
    assert (p[k..] + [lines[n]])[..|p[k..]|] == p[k..];
  }

  /** The line loop reads exactly the rule section as rules and the update
      section as updates, and fails exactly when a rule line does not
      read. */
  lemma {:induction false} ReadSectionLinesMeaning(lines: seq<string>)
    ensures ReadSectionLines(lines).None? <==> ReadRules(RuleSection(lines)).None?
    ensures ReadSectionLines(lines).Some? ==>
              var st := ReadSectionLines(lines).value;
              && (st.ruleMode <==> FirstBlank(lines) == |lines|)
              && Some(st.rules) == ReadRules(RuleSection(lines))
              && st.updates == ReadUpdates(UpdateSection(lines))
    decreases |lines|
  {
    if |lines| == 0 {
      assert RuleSection(lines) == [];
    } else {
      var n := |lines| - 1;
      var p := lines[..n];
      var line := lines[n];
      ReadSectionLinesMeaning(p);
      SectionsStep(lines);
      var k := FirstBlank(p);
      if k == n {
        assert RuleSection(p) == p;
        assert UpdateSection(p) == NonBlank([]);
      }
      match ReadSectionLines(p)
      case None =>
        assert ReadSectionLines(lines).None?;
        if k == n && !Blank(line) {
          assert ReadRules(lines).None?;
        }
      case Some(st) =>
        assert ReadSectionLines(lines) == ReadSectionLine(st, line);
        if Blank(line) {
          assert ReadSectionLines(lines) == Some(st.(ruleMode := false));
          if k < n {
            assert UpdateSection(lines) == UpdateSection(p);
          }
        } else if st.ruleMode {
          assert RuleSection(lines) == lines;
          assert ReadRules(lines)
                 == match (ReadRules(p), ReadPageNumbers(line))
                    case (Some(rules), Some(rule)) => Some(rules + [rule])
                    case _ => None;
        } else {
          ReadUpdatesSnoc(UpdateSection(p), line);
          assert ReadSectionLines(lines) == Some(st.(updates := st.updates + [ReadPageNumberList(line)]));
        }
    }
  }

  /** One more update line read. */
  lemma {:induction false} ReadUpdatesSnoc(updateLines: seq<string>, line: string)
    ensures ReadUpdates(updateLines + [line]) == ReadUpdates(updateLines) + [ReadPageNumberList(line)]
  {
    assert (updateLines + [line])[..|updateLines|] == updateLines;
  }

  /** The loop that keeps the updates failing `test_numbers_for_rules`. */
  method KeepIncorrect(rules: seq<PageOrder<string>>, updates: seq<seq<string>>) returns (incorrect: seq<seq<string>>)
    requires NonEmptyUpdates(updates)
    ensures incorrect == Incorrect(rules, updates)
  {
    incorrect := [];
    for k := 0 to |updates|
      invariant incorrect == Incorrect(rules, updates[..k])
    {
      var ok := TestNumbersForRules(rules, updates[k]);
      assert updates[..k + 1][..k] == updates[..k];
      if !ok {
        incorrect := incorrect + [updates[k]];
      }
    }
    assert updates[..|updates|] == updates;
  }

  /** The loop that sorts each kept update and adds up its middle page. */
  method SumSortedMiddles(rules: seq<PageOrder<string>>, updates: seq<seq<string>>) returns (r: Option<int>)
    requires NonEmptyUpdates(updates)
    ensures r == SumPresent(SortedMiddles(rules, updates))
  {
    ghost var middles := SortedMiddles(rules, updates);
    var sum := 0;
    for k := 0 to |updates|
      invariant SumPresent(middles[..k]) == Some(sum)
    {
      var middle := SortedMiddle(rules, updates, k);
      if middle.None? {
        return None;
      }
      SumPresentStep(middles, k, sum, middle.value);
      sum := sum + middle.value;
    }
    assert middles[..|updates|] == middles;
    return Some(sum);
  }

  /** One update sorted in place by `bubble_sort_pages`, then its middle
      page. */
  method SortedMiddle(rules: seq<PageOrder<string>>, updates: seq<seq<string>>, k: nat) returns (middle: Option<int>)
    requires k < |updates| && NonEmptyUpdates(updates)
    ensures middle == SortedMiddles(rules, updates)[k]
  {
    var update := updates[k];
    var sortedUpdate := new string[|update|](j requires 0 <= j < |update| => update[j]);
    assert sortedUpdate[..] == update;
    BubbleSortPages(rules, sortedUpdate);
    middle := GetMiddlePageNumberVec(sortedUpdate[..]);
  }

  /** The rule lines and the update lines, separated by an empty line,
      come back as the two sections. */
  lemma SectionsOfInput(ruleLines: seq<string>, updateLines: seq<string>)
    requires forall i :: 0 <= i < |ruleLines| ==> !Blank(ruleLines[i])
    requires forall i :: 0 <= i < |updateLines| ==> !Blank(updateLines[i])
    ensures RuleSection(ruleLines + [""] + updateLines) == ruleLines
    ensures UpdateSection(ruleLines + [""] + updateLines) == updateLines
  {
    var lines := ruleLines + [""] + updateLines;
    assert Blank(lines[|ruleLines|]);
    FirstBlankIs(lines, |ruleLines|);
    NonBlankOfBlankThen(updateLines);
    assert lines[|ruleLines|..] == [""] + updateLines;
  }

  lemma {:induction false} FirstBlankFromIs(lines: seq<string>, from: nat, k: nat)
    requires from <= k < |lines| && Blank(lines[k])
    requires forall i :: from <= i < k ==> !Blank(lines[i])
    ensures FirstBlankFrom(lines, from) == k
    decreases k - from
  {
    if from < k {
      FirstBlankFromIs(lines, from + 1, k);
    }
  }

  /** The first blank line is the one before which none is blank. */
  lemma {:induction false} FirstBlankIs(lines: seq<string>, k: nat)
    requires k < |lines| && Blank(lines[k])
    requires forall i :: 0 <= i < k ==> !Blank(lines[i])
    ensures FirstBlank(lines) == k
  {
    FirstBlankFromIs(lines, 0, k);
  }

  /** A blank line followed by non-blank lines keeps those lines. */
  lemma {:induction false} NonBlankOfBlankThen(ls: seq<string>)
    requires forall i :: 0 <= i < |ls| ==> !Blank(ls[i])
    ensures NonBlank([""] + ls) == ls
    decreases |ls|
  {
    if |ls| == 0 {
      assert NonBlank([""]) == NonBlank([]);
    } else {
      var n := |ls| - 1;
      NonBlankOfBlankThen(ls[..n]);
      assert ([""] + ls)[..|ls|] == [""] + ls[..n];
      assert ls[..n] + [ls[n]] == ls;
    }
  }

  /** The updates kept are exactly those that break a rule. */
  lemma {:induction false} IncorrectMembers(rules: seq<PageOrder<string>>, updates: seq<seq<string>>, u: seq<string>)
    ensures u in Incorrect(rules, updates) <==> u in updates && !RulesHold(rules, u)
    decreases |updates|
  {
    if |updates| > 0 {
      var n := |updates| - 1;
      IncorrectMembers(rules, updates[..n], u);
      assert updates == updates[..n] + [updates[n]];
    }
  }

  /** When every update passes the rule check the answer is 0. */
  lemma {:induction false} NoBrokenUpdatesSumToZero(rules: seq<PageOrder<string>>, updates: seq<seq<string>>)
    requires forall i :: 0 <= i < |updates| ==> RulesHold(rules, updates[i])
    ensures Incorrect(rules, updates) == []
    ensures SumPresent(SortedMiddles(rules, Incorrect(rules, updates))) == Some(0)
  {
    IncorrectAreNonEmpty(rules, updates);
    if |Incorrect(rules, updates)| > 0 {
      IncorrectMembers(rules, updates, Incorrect(rules, updates)[0]);
    }
  }

  // ---------------------------------------------------------------------
  // the sorting example: rules that order 1 .. 5 completely
  // ---------------------------------------------------------------------

  const TotalOrderRules: seq<PageOrder<string>> :=
    [PageOrder("1", "2"), PageOrder("1", "3"), PageOrder("1", "4"), PageOrder("1", "5"), PageOrder("2", "3"), PageOrder("2", "4"), PageOrder("2", "5"), PageOrder("3", "4"), PageOrder("3", "5"), PageOrder("4", "5")]

  /** Under these rules a pair is swapped exactly when its later page is
      the smaller number. */
  lemma {:induction false} TotalOrderPair(t: seq<string>, i: nat, j: nat)
    requires i < j < |t|
    requires !(PageOrder(t[i], t[j]) in TotalOrderRules && PageOrder(t[j], t[i]) in TotalOrderRules)
    ensures RuleSwaps(TotalOrderRules, t, i, j, 10)
            == if PageOrder(t[j], t[i]) in TotalOrderRules then Swap(t, i, j) else t
  {
    RuleSwapsOnce(TotalOrderRules, t, i, j, 10);
    assert TotalOrderRules[..10] == TotalOrderRules;
  }

  /** One more pair of an inner pass. */
  lemma {:induction false} InnerPassNext(rules: seq<PageOrder<string>>, s: seq<string>, i: nat, j: nat, t: seq<string>, u: seq<string>)
    requires i < j < |s| && t == InnerPass(rules, s, i, j)
    requires u == RuleSwaps(rules, t, i, j, |rules|)
    ensures InnerPass(rules, s, i, j + 1) == u
  {
  }

  lemma {:induction false} TotalOrderStep01(t: seq<string>)
    requires t == ["4", "5", "1", "3", "2"]
    ensures RuleSwaps(TotalOrderRules, t, 0, 1, 10) == ["4", "5", "1", "3", "2"]
  {
    TotalOrderPair(t, 0, 1);
  }

  lemma {:induction false} TotalOrderStep02(t: seq<string>)
    requires t == ["4", "5", "1", "3", "2"]
    ensures RuleSwaps(TotalOrderRules, t, 0, 2, 10) == ["1", "5", "4", "3", "2"]
  {
    TotalOrderPair(t, 0, 2);
  }

  lemma {:induction false} TotalOrderStep03(t: seq<string>)
    requires t == ["1", "5", "4", "3", "2"]
    ensures RuleSwaps(TotalOrderRules, t, 0, 3, 10) == ["1", "5", "4", "3", "2"]
  {
    TotalOrderPair(t, 0, 3);
  }

  lemma {:induction false} TotalOrderStep04(t: seq<string>)
    requires t == ["1", "5", "4", "3", "2"]
    ensures RuleSwaps(TotalOrderRules, t, 0, 4, 10) == ["1", "5", "4", "3", "2"]
  {
    TotalOrderPair(t, 0, 4);
  }

  lemma {:induction false} TotalOrderPass0(s: seq<string>)
    requires s == ["4", "5", "1", "3", "2"]
    ensures InnerPass(TotalOrderRules, s, 0, 5) == ["1", "5", "4", "3", "2"]
  {
    var t := s;
    assert InnerPass(TotalOrderRules, s, 0, 1) == t;
    TotalOrderStep01(t);
    var u := ["4", "5", "1", "3", "2"];
    InnerPassNext(TotalOrderRules, s, 0, 1, t, u);
    t := u;
    TotalOrderStep02(t);
    u := ["1", "5", "4", "3", "2"];
    InnerPassNext(TotalOrderRules, s, 0, 2, t, u);
    t := u;
    TotalOrderStep03(t);
    u := ["1", "5", "4", "3", "2"];
    InnerPassNext(TotalOrderRules, s, 0, 3, t, u);
    t := u;
    TotalOrderStep04(t);
    u := ["1", "5", "4", "3", "2"];
    InnerPassNext(TotalOrderRules, s, 0, 4, t, u);
    t := u;
  }

  lemma {:induction false} TotalOrderStep12(t: seq<string>)
    requires t == ["1", "5", "4", "3", "2"]
    ensures RuleSwaps(TotalOrderRules, t, 1, 2, 10) == ["1", "4", "5", "3", "2"]
  {
    TotalOrderPair(t, 1, 2);
  }

  lemma {:induction false} TotalOrderStep13(t: seq<string>)
    requires t == ["1", "4", "5", "3", "2"]
    ensures RuleSwaps(TotalOrderRules, t, 1, 3, 10) == ["1", "3", "5", "4", "2"]
  {
    TotalOrderPair(t, 1, 3);
  }

  lemma {:induction false} TotalOrderStep14(t: seq<string>)
    requires t == ["1", "3", "5", "4", "2"]
    ensures RuleSwaps(TotalOrderRules, t, 1, 4, 10) == ["1", "2", "5", "4", "3"]
  {
    TotalOrderPair(t, 1, 4);
  }

  lemma {:induction false} TotalOrderPass1(s: seq<string>)
    requires s == ["1", "5", "4", "3", "2"]
    ensures InnerPass(TotalOrderRules, s, 1, 5) == ["1", "2", "5", "4", "3"]
  {
    var t := s;
    assert InnerPass(TotalOrderRules, s, 1, 2) == t;
    TotalOrderStep12(t);
    var u := ["1", "4", "5", "3", "2"];
    InnerPassNext(TotalOrderRules, s, 1, 2, t, u);
    t := u;
    TotalOrderStep13(t);
    u := ["1", "3", "5", "4", "2"];
    InnerPassNext(TotalOrderRules, s, 1, 3, t, u);
    t := u;
    TotalOrderStep14(t);
    u := ["1", "2", "5", "4", "3"];
    InnerPassNext(TotalOrderRules, s, 1, 4, t, u);
    t := u;
  }

  lemma {:induction false} TotalOrderStep23(t: seq<string>)
    requires t == ["1", "2", "5", "4", "3"]
    ensures RuleSwaps(TotalOrderRules, t, 2, 3, 10) == ["1", "2", "4", "5", "3"]
  {
    TotalOrderPair(t, 2, 3);
  }

  lemma {:induction false} TotalOrderStep24(t: seq<string>)
    requires t == ["1", "2", "4", "5", "3"]
    ensures RuleSwaps(TotalOrderRules, t, 2, 4, 10) == ["1", "2", "3", "5", "4"]
  {
    TotalOrderPair(t, 2, 4);
  }

  lemma {:induction false} TotalOrderPass2(s: seq<string>)
    requires s == ["1", "2", "5", "4", "3"]
    ensures InnerPass(TotalOrderRules, s, 2, 5) == ["1", "2", "3", "5", "4"]
  {
    var t := s;
    assert InnerPass(TotalOrderRules, s, 2, 3) == t;
    TotalOrderStep23(t);
    var u := ["1", "2", "4", "5", "3"];
    InnerPassNext(TotalOrderRules, s, 2, 3, t, u);
    t := u;
    TotalOrderStep24(t);
    u := ["1", "2", "3", "5", "4"];
    InnerPassNext(TotalOrderRules, s, 2, 4, t, u);
    t := u;
  }

  lemma {:induction false} TotalOrderStep34(t: seq<string>)
    requires t == ["1", "2", "3", "5", "4"]
    ensures RuleSwaps(TotalOrderRules, t, 3, 4, 10) == ["1", "2", "3", "4", "5"]
  {
    TotalOrderPair(t, 3, 4);
  }

  lemma {:induction false} TotalOrderPass3(s: seq<string>)
    requires s == ["1", "2", "3", "5", "4"]
    ensures InnerPass(TotalOrderRules, s, 3, 5) == ["1", "2", "3", "4", "5"]
  {
    var t := s;
    assert InnerPass(TotalOrderRules, s, 3, 4) == t;
    TotalOrderStep34(t);
    var u := ["1", "2", "3", "4", "5"];
    InnerPassNext(TotalOrderRules, s, 3, 4, t, u);
    t := u;
  }

  /** Under rules ordering 1 .. 5 completely, the swap sort puts
      4, 5, 1, 3, 2 in ascending order. */
  lemma TotalOrderExample(s: seq<string>)
    requires s == ["4", "5", "1", "3", "2"]
    ensures BubbleSorted(TotalOrderRules, s) == ["1", "2", "3", "4", "5"]
  {
    var t := s;
    TotalOrderPass0(t);
    t := InnerPass(TotalOrderRules, t, 0, 5);
    assert OuterPasses(TotalOrderRules, s, 1) == t;
    TotalOrderPass1(t);
    t := InnerPass(TotalOrderRules, t, 1, 5);
    assert OuterPasses(TotalOrderRules, s, 2) == t;
    TotalOrderPass2(t);
    t := InnerPass(TotalOrderRules, t, 2, 5);
    assert OuterPasses(TotalOrderRules, s, 3) == t;
    TotalOrderPass3(t);
    t := InnerPass(TotalOrderRules, t, 3, 5);
    assert OuterPasses(TotalOrderRules, s, 4) == t;
  }

  /** With the single rule 1|2, of the updates "1,2" and "2,1" only the
      second breaks it. */
  lemma {:induction false} SingleRuleIncorrect(rules: seq<PageOrder<string>>, updates: seq<seq<string>>)
    requires rules == [PageOrder("1", "2")]
    requires updates == [["1", "2"], ["2", "1"]]
    ensures Incorrect(rules, updates) == [["2", "1"]]
  {
    assert RulesHold(rules, updates[0]);
    assert !RulesHold(rules, updates[1]) by {
      assert Precedes(rules, updates[1][1], updates[1][0]);
    }
    assert updates[..1] == [updates[0]];
    assert Incorrect(rules, updates[..1]) == [];
  }

  /** Sorted by the rule 1|2, "2,1" reads "1,2". */
  lemma SingleRuleSorted(rules: seq<PageOrder<string>>, u: seq<string>)
    requires rules == [PageOrder("1", "2")] && u == ["2", "1"]
    ensures BubbleSorted(rules, u) == ["1", "2"]
  {
    assert RuleSwaps(rules, u, 0, 1, 0) == u;
    assert RuleSwaps(rules, u, 0, 1, 1) == ["1", "2"];
    assert InnerPass(rules, u, 0, 1) == u;
    assert OuterPasses(rules, u, 0) == u;
  }

  /** The single rule example: the answer is the middle page 1 of the
      sorted "2,1". */
  lemma {:induction false} SingleRuleExample(rules: seq<PageOrder<string>>, updates: seq<seq<string>>)
    requires rules == [PageOrder("1", "2")]
    requires updates == [["1", "2"], ["2", "1"]]
    ensures NonEmptyUpdates(Incorrect(rules, updates))
    ensures SumPresent(SortedMiddles(rules, Incorrect(rules, updates))) == Some(1)
  {
    SingleRuleIncorrect(rules, updates);
    var u := ["2", "1"];
    SingleRuleSorted(rules, u);
    assert ParseInt("1") == Some(1);
  }
}
