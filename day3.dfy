/** Day 3: the instructions `mul(a,b)`, `do()` and `don't()` are picked out
    of corrupted memory one after the other, and the enabled
    multiplications are summed. The regular expression that recognises
    one instruction is a parameter of the model: `firstMatch` stands for
    `find_first_pattern_in_string`. */
module Day3 {
  import opened Text

  /** `mul`: integer multiplication. */
  function Mul(left: int, right: int): (r: int)
    ensures left == 0 || right == 0 ==> r == 0
    ensures left > 0 && right > 0 ==> r >= left && r >= right
  {
    left * right
  }

  // ---------------------------------------------------------------------
  // finding the instructions
  // ---------------------------------------------------------------------

  /** The text p occurs in s at index j. */
  predicate OccursAt(s: string, p: string, j: nat)
  {
    j + |p| <= |s| && s[j..j + |p|] == p
  }

  /** `s.find(p)` from index i on: the first index at which p occurs. */
  function FindFrom(s: string, p: string, i: nat): (r: Option<nat>)
    requires i <= |s|
    ensures r.Some? ==> i <= r.value && OccursAt(s, p, r.value)
    ensures r.Some? ==> forall j :: i <= j < r.value ==> !OccursAt(s, p, j)
    ensures r.None? ==> forall j :: i <= j ==> !OccursAt(s, p, j)
    decreases |s| - i
  {
    if OccursAt(s, p, i) then Some(i)
    else if i + |p| >= |s| then None
    else FindFrom(s, p, i + 1)
  }

  /** `s.find(p)`: the first index at which p occurs. */
  function FindSubstring(s: string, p: string): (r: Option<nat>)
    ensures r.Some? ==> OccursAt(s, p, r.value) && forall j :: 0 <= j < r.value ==> !OccursAt(s, p, j)
    ensures r.None? <==> forall j :: !OccursAt(s, p, j)
  {
    FindFrom(s, p, 0)
  }

  /** What `find_first_pattern_in_string` guarantees: a match is a
      non-empty piece of the text searched. */
  ghost predicate MatchesInside(firstMatch: string -> Option<string>)
  {
    forall s :: firstMatch(s).Some? ==>
      |firstMatch(s).value| > 0 && FindSubstring(s, firstMatch(s).value).Some?
  }

  /** One found instruction and the index in the whole input where it
      starts. */
  datatype Match = Match(at: nat, text: string)

  function Shift(ms: seq<Match>, d: nat): (r: seq<Match>)
    ensures |r| == |ms|
    ensures forall k {:trigger r[k]} :: 0 <= k < |ms| ==> r[k] == Match(ms[k].at + d, ms[k].text)
  {
    seq(|ms|, k requires 0 <= k < |ms| => Match(ms[k].at + d, ms[k].text))
  }

  function Texts(ms: seq<Match>): (r: seq<string>)
    ensures |r| == |ms| && forall k :: 0 <= k < |ms| ==> r[k] == ms[k].text
  {
    seq(|ms|, k requires 0 <= k < |ms| => ms[k].text)
  }

  /** The instructions of s with their positions: a match, then the
      matches of what follows it. */
  function Scan(firstMatch: string -> Option<string>, s: string): seq<Match>
    requires MatchesInside(firstMatch)
    decreases |s|
  {
    match firstMatch(s)
    case None => []
    case Some(p) =>
      var at := FindSubstring(s, p).value;
      [Match(at, p)] + Shift(Scan(firstMatch, s[at + |p|..]), at + |p|)
  }

  /** Every match lies in s where its position says. */
  predicate LieIn(s: string, ms: seq<Match>)
  {
    forall k :: 0 <= k < |ms| ==> OccursAt(s, ms[k].text, ms[k].at)
  }

  /** Every match starts after the end of the previous one. */
  predicate InOrder(ms: seq<Match>)
  {
    forall k :: 0 <= k < |ms| - 1 ==> ms[k].at + |ms[k].text| <= ms[k + 1].at
  }

  /** Matches found in a suffix of s lie in s once shifted by where the
      suffix starts. */
  lemma ShiftLieIn(s: string, d: nat, tail: seq<Match>)
    requires d <= |s| && LieIn(s[d..], tail)
    ensures LieIn(s, Shift(tail, d))
  {
    var rest := s[d..];
    var shifted := Shift(tail, d);
    forall k | 0 <= k < |shifted| ensures OccursAt(s, shifted[k].text, shifted[k].at) {
      var m := tail[k];
      assert OccursAt(rest, m.text, m.at);
      assert s[m.at + d..m.at + d + |m.text|] == rest[m.at..m.at + |m.text|];
    }
  }

  /** One match in front of matches that start after its end. */
  lemma ConsLieInOrder(s: string, m: Match, d: nat, tail: seq<Match>)
    requires OccursAt(s, m.text, m.at) && m.at + |m.text| <= d
    requires LieIn(s, Shift(tail, d)) && InOrder(tail)
    ensures LieIn(s, [m] + Shift(tail, d)) && InOrder([m] + Shift(tail, d))
  {
  }

  /** The instructions come left to right: each lies in the input where
      its position says, and each search resumes after the end of the
      previous match. */
  lemma {:induction false} ScanInOrder(firstMatch: string -> Option<string>, s: string)
    requires MatchesInside(firstMatch)
    ensures LieIn(s, Scan(firstMatch, s)) && InOrder(Scan(firstMatch, s))
    decreases |s|
  {
    match firstMatch(s)
    case None =>
    case Some(p) =>
      var at := FindSubstring(s, p).value;
      var d := at + |p|;
      ScanInOrder(firstMatch, s[d..]);
      var tail := Scan(firstMatch, s[d..]);
      assert Scan(firstMatch, s) == [Match(at, p)] + Shift(tail, d);
      ShiftLieIn(s, d, tail);
      ConsLieInOrder(s, Match(at, p), d, tail);
  }

  /** The texts of a match followed by shifted matches. */
  lemma TextsOfShifted(m: Match, rest: seq<Match>, d: nat)
    ensures Texts([m] + Shift(rest, d)) == [m.text] + Texts(rest)
  {
    var whole := [m] + Shift(rest, d);
    forall k | 0 <= k < |whole|
      ensures Texts(whole)[k] == ([m.text] + Texts(rest))[k]
    {
      if k > 0 {
        assert whole[k] == Shift(rest, d)[k - 1];
      }
    }
  }

  /** The texts of the matches of s: the first match, then the texts of
      the matches after it. */
  lemma {:induction false} ScanTexts(firstMatch: string -> Option<string>, s: string, p: string)
    requires MatchesInside(firstMatch) && firstMatch(s) == Some(p)
    ensures FindSubstring(s, p).value + |p| <= |s|
    ensures Texts(Scan(firstMatch, s)) == [p] + Texts(Scan(firstMatch, s[FindSubstring(s, p).value + |p|..]))
  {
    var at := FindSubstring(s, p).value;
    assert OccursAt(s, p, at);
    ScanStep(firstMatch, s, p, at);
    TextsOfShifted(Match(at, p), Scan(firstMatch, s[at + |p|..]), at + |p|);
  }

  /** One step of Scan. */
  lemma {:induction false} ScanStep(firstMatch: string -> Option<string>, s: string, p: string, at: nat)
    requires MatchesInside(firstMatch) && firstMatch(s) == Some(p) && FindSubstring(s, p) == Some(at)
    requires at + |p| <= |s|
    ensures Scan(firstMatch, s) == [Match(at, p)] + Shift(Scan(firstMatch, s[at + |p|..]), at + |p|)
  {
  }

  /** `find_all_patterns`. */
  method FindAllPatterns(firstMatch: string -> Option<string>, input: string) returns (patterns: seq<string>)
    requires MatchesInside(firstMatch)
    ensures patterns == Texts(Scan(firstMatch, input))
  {
    patterns := [];
    var inputCopy := input;
    while true
      invariant patterns + Texts(Scan(firstMatch, inputCopy)) == Texts(Scan(firstMatch, input))
      decreases |inputCopy|
    {
      match firstMatch(inputCopy)
      case None =>
        assert Scan(firstMatch, inputCopy) == [];
        return;
      case Some(pattern) =>
        var at := FindSubstring(inputCopy, pattern).value;
        ScanTexts(firstMatch, inputCopy, pattern);
        ConcatAssoc(patterns, [pattern], Texts(Scan(firstMatch, inputCopy[at + |pattern|..])));
        patterns := patterns + [pattern];
        inputCopy := inputCopy[at + |pattern|..];
    }
  }

  // ---------------------------------------------------------------------
  // the numbers of a mul instruction
  // ---------------------------------------------------------------------

  /** The two numbers of a `mul(a,b)` text: the digits between '(' and ','
      and those between ',' and ')'. None stands for the panics: a missing
      character, a slice whose start lies after its end, a number that
      does not parse. */
  function MulArguments(pattern: string): Option<(int, int)>
  {
    var open, comma, close := FindChar(pattern, '('), FindChar(pattern, ','), FindChar(pattern, ')');
    if open.None? || comma.None? || close.None? then None
    else if open.value + 1 > comma.value || comma.value + 1 > close.value then None
    else
      var left := ParseInt(pattern[open.value + 1..comma.value]);
      var right := ParseInt(pattern[comma.value + 1..close.value]);
      if left.Some? && right.Some? then Some((left.value, right.value)) else None
  }

  /** The text `mul(a,b)` for two numbers of decimal digits. */
  function MulText(a: nat, b: nat): string
  {
    "mul(" + NatToString(a) + "," + NatToString(b) + ")"
  }

  lemma DigitsHaveNoPunctuation(s: string)
    requires AllDigits(s)
    ensures '(' !in s && ',' !in s && ')' !in s
  {
  }

  /** A text with its first '(' at 3, its first ',' at comma and its first
      ')' at close, whose two slices between them parse, has those numbers
      as its arguments. */
  lemma MulArgumentsFrom(t: string, comma: nat, close: nat, a: int, b: int)
    requires FindChar(t, '(') == Some(3) && FindChar(t, ',') == Some(comma) && FindChar(t, ')') == Some(close)
    requires 4 <= comma < close
    requires ParseInt(t[4..comma]) == Some(a) && ParseInt(t[comma + 1..close]) == Some(b)
    ensures MulArguments(t) == Some((a, b))
  {
  }

  /** `mul(` sa `,` sb `)` with punctuation-free sa and sb: each
      punctuation character is found where it was written, the slices
      between them are sa and sb, and so its arguments are the numbers sa
      and sb parse as. */
  lemma {:induction false} MulArgumentsOfShape(t: string, sa: string, sb: string, a: int, b: int)
    requires t == "mul(" + sa + "," + sb + ")"
    requires '(' !in sa && ',' !in sa && ')' !in sa
    requires '(' !in sb && ',' !in sb && ')' !in sb
    requires ParseInt(sa) == Some(a) && ParseInt(sb) == Some(b)
    ensures MulArguments(t) == Some((a, b))
  {
    var comma, close := 4 + |sa|, 5 + |sa| + |sb|;
    assert t[..3] == "mul" && t[3] == '(';
    FindCharAt(t, '(', 3);
    assert t[..comma] == "mul(" + sa && t[comma] == ',';
    FindCharAt(t, ',', comma);
    assert t[..close] == "mul(" + sa + "," + sb && t[close] == ')';
    FindCharAt(t, ')', close);
    assert t[4..comma] == sa;
    assert t[comma + 1..close] == sb;
    MulArgumentsFrom(t, comma, close, a, b);
  }

  /** The numbers are read back from the text of a mul instruction. */
  lemma {:induction false} MulArgumentsOfMulText(a: nat, b: nat)
    ensures MulArguments(MulText(a, b)) == Some((a, b))
  {
    var sa, sb := NatToString(a), NatToString(b);
    DigitsHaveNoPunctuation(sa);
    DigitsHaveNoPunctuation(sb);
    ParseIntOfNatToString(a);
    ParseIntOfNatToString(b);
    MulArgumentsOfShape(MulText(a, b), sa, sb, a, b);
  }

  // ---------------------------------------------------------------------
  // enabling, disabling and summing
  // ---------------------------------------------------------------------

  /** Whether multiplying is active once the given instructions have been
      seen: it starts active, `do()` always activates it, `don't()`
      deactivates it while it is active. */
  function ActiveAfter(patterns: seq<string>): bool
    decreases |patterns|
  {
    if |patterns| == 0 then true
    else
      var p := patterns[|patterns| - 1];
      var active := ActiveAfter(patterns[..|patterns| - 1]);
      if p == "do()" then true
      else if active && p == "don't()" then false
      else active
  }

  /** Every `don't()` among the first n instructions is followed by a
      `do()` among them. */
  predicate EnabledAt(patterns: seq<string>, n: nat)
    requires n <= |patterns|
  {
    forall j :: 0 <= j < n && patterns[j] == "don't()" ==>
      exists j' :: j < j' < n && patterns[j'] == "do()"
  }

  /** Multiplying is active exactly when no `don't()` has been seen since
      the last `do()`. */
  lemma {:induction false} ActiveAfterIsEnabled(patterns: seq<string>)
    ensures ActiveAfter(patterns) == EnabledAt(patterns, |patterns|)
    decreases |patterns|
  {
    var n := |patterns|;
    if n > 0 {
      var init := patterns[..n - 1];
      ActiveAfterIsEnabled(init);
      var p := patterns[n - 1];
      if p == "do()" {
        assert EnabledAt(patterns, n) by {
          forall j | 0 <= j < n && patterns[j] == "don't()"
            ensures exists j' :: j < j' < n && patterns[j'] == "do()"
          {
            assert j < n - 1;
          }
        }
      } else if p == "don't()" && ActiveAfter(init) {
        assert !EnabledAt(patterns, n) by {
          assert patterns[n - 1] == "don't()";
        }
      } else {
        assert EnabledAt(patterns, n) == EnabledAt(init, n - 1) by {
          if EnabledAt(init, n - 1) {
            forall j | 0 <= j < n && patterns[j] == "don't()"
              ensures exists j' :: j < j' < n && patterns[j'] == "do()"
            {
              assert j < n - 1 && init[j] == patterns[j];
              var j' :| j < j' < n - 1 && init[j'] == "do()";
              assert patterns[j'] == "do()";
            }
          } else {
            var j :| 0 <= j < n - 1 && init[j] == "don't()" &&
                     !(exists j' :: j < j' < n - 1 && init[j'] == "do()");
            assert patterns[j] == "don't()";
            forall j' | j < j' < n ensures patterns[j'] != "do()" {
              if j' < n - 1 {
                assert init[j'] == patterns[j'];
              }
            }
          }
        }
      }
    }
  }

  /** What `calculate_result_of_multiplications` sums over the given
      instructions, each `mul` text read by args; None stands for a panic
      on a mul text that args cannot read. */
  function TotalWith(args: string -> Option<(int, int)>, patterns: seq<string>): Option<int>
    decreases |patterns|
  {
    if |patterns| == 0 then Some(0)
    else
      var init := patterns[..|patterns| - 1];
      var p := patterns[|patterns| - 1];
      match TotalWith(args, init)
      case None => None
      case Some(sum) =>
        if p == "do()" || !ActiveAfter(init) || p == "don't()" then Some(sum)
        else
          match args(p)
          case None => None
          case Some((left, right)) => Some(sum + Mul(left, right))
  }

  /** The sum, each `mul` text read by MulArguments. */
  function Total(patterns: seq<string>): Option<int>
  {
    TotalWith(MulArguments, patterns)
  }

  /** The loop of `calculate_result_of_multiplications`. */
  method SumEnabledMultiplications(patterns: seq<string>) returns (r: Option<int>)
    ensures r == Total(patterns)
  {
    var sum := 0;
    var isMultiplyingActive := true;
    for i := 0 to |patterns|
      invariant Total(patterns[..i]) == Some(sum)
      invariant isMultiplyingActive == ActiveAfter(patterns[..i])
    {
      var pattern := patterns[i];
      assert patterns[..i + 1][..i] == patterns[..i] && patterns[..i + 1][i] == pattern;
      if pattern == "do()" {
        isMultiplyingActive := true;
        continue;
      }
      if isMultiplyingActive {
        if pattern == "don't()" {
          isMultiplyingActive := false;
          continue;
        }
      } else {
        continue;
      }
      var numbers := MulArguments(pattern);
      if numbers.None? {
        assert Total(patterns[..i + 1]).None?;
        TotalStaysNone(MulArguments, patterns, i + 1);
        return None;
      }
      sum := sum + Mul(numbers.value.0, numbers.value.1);
    }
    assert patterns[..|patterns|] == patterns;
    r := Some(sum);
  }

  /** Once a panic has happened, it stays. */
  lemma {:induction false} TotalStaysNone(args: string -> Option<(int, int)>, patterns: seq<string>, n: nat)
    requires n <= |patterns| && TotalWith(args, patterns[..n]).None?
    ensures TotalWith(args, patterns).None?
    decreases |patterns| - n
  {
    if n < |patterns| {
      assert patterns[..n + 1][..n] == patterns[..n];
      TotalStaysNone(args, patterns, n + 1);
    } else {
      assert patterns[..n] == patterns;
    }
  }

  /** `calculate_result_of_multiplications`. */
  method CalculateResultOfMultiplications(firstMatch: string -> Option<string>, input: string)
    returns (r: Option<int>)
    requires MatchesInside(firstMatch)
    ensures r == Total(Texts(Scan(firstMatch, input)))
  {
    var patterns := FindAllPatterns(firstMatch, input);
    r := SumEnabledMultiplications(patterns);
  }

  // ---------------------------------------------------------------------
  // the instruction-level meaning
  // ---------------------------------------------------------------------

  /** An instruction as the puzzle describes it. */
  datatype Instruction = Do | Dont | MulOf(a: nat, b: nat)

  function Spelling(i: Instruction): string
  {
    match i
    case Do => "do()"
    case Dont => "don't()"
    case MulOf(a, b) => MulText(a, b)
  }

  function TextsOf(instructions: seq<Instruction>): (r: seq<string>)
    ensures |r| == |instructions|
    ensures forall k :: 0 <= k < |r| ==> r[k] == Spelling(instructions[k])
  {
    seq(|instructions|, k requires 0 <= k < |instructions| => Spelling(instructions[k]))
  }

  /** The puzzle's reading, from the front: `do()` and `don't()` switch
      multiplying on and off, and every multiplication met while it is on
      adds its product. */
  function Value(instructions: seq<Instruction>, active: bool): int
    decreases |instructions|
  {
    if |instructions| == 0 then 0
    else
      match instructions[0]
      case Do => Value(instructions[1..], true)
      case Dont => Value(instructions[1..], false)
      case MulOf(a, b) => (if active then a * b else 0) + Value(instructions[1..], active)
  }

  /** args reads back the numbers of every `mul` text. */
  ghost predicate ReadsMulTexts(args: string -> Option<(int, int)>)
  {
    forall a: nat, b: nat :: args(MulText(a, b)) == Some((a, b))
  }

  /** MulArguments reads back the numbers of every `mul` text. */
  lemma MulArgumentsReadsMulTexts()
    ensures ReadsMulTexts(MulArguments)
  {
    forall a: nat, b: nat
      ensures MulArguments(MulText(a, b)) == Some((a, b))
    {
      MulArgumentsOfMulText(a, b);
    }
  }

  /** One more instruction text, told apart from `do()` and `don't()`,
      whose numbers read: what it adds to the sum. */
  lemma {:induction false} TotalOfMulPattern(args: string -> Option<(int, int)>, done: seq<string>, sum: int,
                                             p: string, a: int, b: int)
    requires TotalWith(args, done) == Some(sum)
    requires p != "do()" && p != "don't()" && args(p) == Some((a, b))
    ensures TotalWith(args, done + [p]) == Some(sum + (if ActiveAfter(done) then a * b else 0))
  {
    var d := done + [p];
    assert d[..|d| - 1] == done && d[|d| - 1] == p;
  }

  /** One more `do()` or `don't()`: the sum stays and the flag is set. */
  lemma {:induction false} TotalOfSwitch(args: string -> Option<(int, int)>, done: seq<string>, sum: int, p: string)
    requires TotalWith(args, done) == Some(sum)
    requires p == "do()" || p == "don't()"
    ensures TotalWith(args, done + [p]) == Some(sum)
  {
    var d := done + [p];
    assert d[..|d| - 1] == done && d[|d| - 1] == p;
  }

  /** `do()` sets the flag, `don't()` clears it, anything else keeps it. */
  lemma {:induction false} ActiveAfterAppend(done: seq<string>, p: string)
    ensures ActiveAfter(done + [p]) == (if p == "do()" then true else if p == "don't()" then false else ActiveAfter(done))
  {
    var d := done + [p];
    assert d[..|d| - 1] == done && d[|d| - 1] == p;
  }

  /** One more instruction text: what it adds to the sum. */
  lemma {:induction false} TotalOfOne(args: string -> Option<(int, int)>, done: seq<string>, sum: int, i: Instruction)
    requires ReadsMulTexts(args) && TotalWith(args, done) == Some(sum)
    ensures TotalWith(args, done + [Spelling(i)]) ==
            Some(sum + (if i.MulOf? && ActiveAfter(done) then i.a * i.b else 0))
  {
    match i
    case Do => TotalOfSwitch(args, done, sum, "do()");
    case Dont => TotalOfSwitch(args, done, sum, "don't()");
    case MulOf(a, b) =>
      var p := MulText(a, b);
      assert p[0] == 'm';
      TotalOfMulPattern(args, done, sum, p, a, b);
  }

  /** One more instruction text: how it leaves the active flag. */
  lemma {:induction false} ActiveOfOne(done: seq<string>, i: Instruction)
    ensures ActiveAfter(done + [Spelling(i)]) == (if i.Do? then true else if i.Dont? then false else ActiveAfter(done))
  {
    ActiveAfterAppend(done, Spelling(i));
    if i.MulOf? {
      assert Spelling(i)[0] == 'm';
    }
  }

  /** Whether multiplying is active after the instructions, from the
      front. */
  function FinalActive(instructions: seq<Instruction>, active: bool): bool
    decreases |instructions|
  {
    if |instructions| == 0 then active
    else
      match instructions[0]
      case Do => FinalActive(instructions[1..], true)
      case Dont => FinalActive(instructions[1..], false)
      case MulOf(_, _) => FinalActive(instructions[1..], active)
  }

  /** The value of a list with one more instruction at its end. */
  lemma {:induction false} ValueOfAppend(instructions: seq<Instruction>, i: Instruction, active: bool)
    ensures Value(instructions + [i], active) ==
            Value(instructions, active) + (if i.MulOf? && FinalActive(instructions, active) then i.a * i.b else 0)
    ensures FinalActive(instructions + [i], active) ==
            (if i.Do? then true else if i.Dont? then false else FinalActive(instructions, active))
    decreases |instructions|
  {
    var all := instructions + [i];
    if |instructions| == 0 {
      assert all[1..] == [];
    } else {
      assert all[1..] == instructions[1..] + [i];
      match instructions[0]
      case Do => ValueOfAppend(instructions[1..], i, true);
      case Dont => ValueOfAppend(instructions[1..], i, false);
      case MulOf(_, _) => ValueOfAppend(instructions[1..], i, active);
    }
  }

  /** The sum over the texts of a list of instructions, each `mul` text
      read by any reader that reads them back, is the puzzle's value of
      that list, multiplying being active at the start; and the source's
      active flag agrees with the puzzle's. */
  lemma {:induction false} TotalWithIsValue(args: string -> Option<(int, int)>, instructions: seq<Instruction>)
    requires ReadsMulTexts(args)
    ensures TotalWith(args, TextsOf(instructions)) == Some(Value(instructions, true))
    ensures ActiveAfter(TextsOf(instructions)) == FinalActive(instructions, true)
    decreases |instructions|
  {
    var n := |instructions|;
    if n > 0 {
      var init := instructions[..n - 1];
      var i := instructions[n - 1];
      TotalWithIsValue(args, init);
      assert instructions == init + [i];
      assert TextsOf(instructions) == TextsOf(init) + [Spelling(i)];
      TotalOfOne(args, TextsOf(init), Value(init, true), i);
      ActiveOfOne(TextsOf(init), i);
      ValueOfAppend(init, i, true);
    } else {
      assert TextsOf(instructions) == [];
    }
  }

  /** The sum over the texts of a list of instructions is the puzzle's
      value of that list. */
  lemma {:induction false} TotalIsValue(instructions: seq<Instruction>)
    ensures Total(TextsOf(instructions)) == Some(Value(instructions, true))
    ensures ActiveAfter(TextsOf(instructions)) == FinalActive(instructions, true)
  {
    MulArgumentsReadsMulTexts();
    TotalWithIsValue(MulArguments, instructions);
  }

  /** The instructions of the example memory
      `xmul(2,4)&mul[3,7]!^don't()_mul(5,5)+mul(32,64](mul(11,8)undo()?mul(8,5))`
      sum to 48. */
  lemma Example()
    ensures Total(TextsOf([MulOf(2, 4), Dont, MulOf(5, 5), MulOf(11, 8), Do, MulOf(8, 5)])) == Some(48)
  {
    var instructions := [MulOf(2, 4), Dont, MulOf(5, 5), MulOf(11, 8), Do, MulOf(8, 5)];
    TotalIsValue(instructions);
    assert instructions[1..] == [Dont, MulOf(5, 5), MulOf(11, 8), Do, MulOf(8, 5)];
    assert instructions[1..][1..] == [MulOf(5, 5), MulOf(11, 8), Do, MulOf(8, 5)];
    assert instructions[1..][1..][1..] == [MulOf(11, 8), Do, MulOf(8, 5)];
    assert instructions[1..][1..][1..][1..] == [Do, MulOf(8, 5)];
    assert instructions[1..][1..][1..][1..][1..] == [MulOf(8, 5)];
  }
}
