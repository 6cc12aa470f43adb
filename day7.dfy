/** Day 7, "Bridge Repair": calibration equations, a test value followed by
    numbers that are combined strictly left to right with addition,
    multiplication and decimal concatenation. An equation counts towards
    the calibration total when some choice of operators yields its test
    value. The program works on u64; the model works on natural numbers
    without a width. */
module Day7 {
  import opened Text

  // ---------------------------------------------------------------------
  // the three operators
  // ---------------------------------------------------------------------

  /** `add`. */
  function Add(left: nat, right: nat): nat
  {
    left + right
  }

  /** `multiply`. */
  function Multiply(left: nat, right: nat): nat
  {
    left * right
  }

  /** `concatenate`: the decimal text of `left` with that of `right`
      appended, read back as a number. What that computes through text is
      the arithmetic shift: `left` moved by as many decimal places as
      `right` has digits, plus `right`. */
  function Concatenate(left: nat, right: nat): (r: nat)
    ensures r == Shifted(left, right)
  {
    var leftString := NatToString(left);
    var rightString := NatToString(right);
    JoinedDigitsParse(leftString, rightString);
    DigitsValueOfConcat(leftString, rightString);
    DigitsValueOfNatToString(left);
    DigitsValueOfNatToString(right);
    NatToStringLength(right);
    ParseNat(leftString + rightString).value
  }

  /** Two strings of digits, the first one not empty, parse as a number. */
  lemma JoinedDigitsParse(a: string, b: string)
    requires |a| >= 1 && AllDigits(a) && AllDigits(b)
    ensures ParseNat(a + b).Some?
  {
    assert IsDigit((a + b)[0]);
    DigitsValueOfConcat(a, b);
  }

  /** How many decimal digits `n` is written with. */
  function DigitCount(n: nat): (k: nat)
    ensures k >= 1
    decreases n
  {
    if n < 10 then 1 else DigitCount(n / 10) + 1
  }

  /** The number of digits is the least k >= 1 with n < 10^k. */
  lemma {:induction false} DigitCountBounds(n: nat)
    ensures n < Pow10(DigitCount(n))
    ensures DigitCount(n) > 1 ==> Pow10(DigitCount(n) - 1) <= n
    decreases n
  {
    if n >= 10 {
      DigitCountBounds(n / 10);
    }
  }

  /** `left` shifted by as many decimal places as `right` has digits, plus
      `right`: the arithmetic reading of concatenation. */
  function Shifted(left: nat, right: nat): nat
  {
    left * Pow10(DigitCount(right)) + right
  }

  /** NatToString writes DigitCount digits. */
  lemma {:induction false} NatToStringLength(n: nat)
    ensures |NatToString(n)| == DigitCount(n)
    decreases n
  {
    if n >= 10 {
      NatToStringLength(n / 10);
    }
  }

  /** `concatenate(2, 3)` is 23: a one-digit right operand shifts the left
      one by one place. */
  lemma ConcatenateOneDigit(left: nat, right: nat)
    requires right < 10
    ensures Concatenate(left, right) == left * 10 + right
  {
  }

  /** The operators `calculate_one_equation` tries, in the order it tries
      them. */
  datatype Operator = Plus | Times | Concat

  function Apply(op: Operator, left: nat, right: nat): nat
  {
    match op
    case Plus => Add(left, right)
    case Times => Multiply(left, right)
    case Concat => Shifted(left, right)
  }

  // ---------------------------------------------------------------------
  // reading the input
  // ---------------------------------------------------------------------

  /** One calibration equation: the test value and the numbers. */
  datatype Equation = Equation(result: nat, members: seq<nat>)

  /** `chars().take_while(|&ch| ch != ':')`: the text before the first ':',
      or all of it when there is none. */
  function TakeUntilColon(line: string): (r: string)
    ensures ':' !in r && r <= line
    ensures |r| < |line| ==> line[|r|] == ':'
  {
    match FindChar(line, ':')
    case None => line
    case Some(k) => line[..k]
  }

  /** `skip_while(|string| string.contains(':'))`: the pieces from the first
      one without a ':' on. */
  function SkipWithColon(pieces: seq<string>): (r: seq<string>)
    ensures |r| <= |pieces| && r == pieces[|pieces| - |r|..]
    ensures forall i :: 0 <= i < |pieces| - |r| ==> ':' in pieces[i]
    ensures |r| > 0 ==> ':' !in r[0]
    decreases |pieces|
  {
    if |pieces| > 0 && ':' in pieces[0] then SkipWithColon(pieces[1..]) else pieces
  }

  /** Each piece parsed as a u64. */
  function ParseEach(pieces: seq<string>): (r: seq<Option<nat>>)
    ensures |r| == |pieces| && forall i :: 0 <= i < |pieces| ==> r[i] == ParseNat(pieces[i])
  {
    seq(|pieces|, i requires 0 <= i < |pieces| => ParseNat(pieces[i]))
  }

  /** One line of `read_input`: the number before ':' is the test value,
      the pieces split at ' ' after those holding ':' are the numbers. None
      where one of the `unwrap` calls panics. */
  function ReadEquation(line: string): Option<Equation>
  {
    match ParseNat(TakeUntilColon(line))
    case None => None
    case Some(result) =>
      match AllSome(ParseEach(SkipWithColon(Split(line, ' '))))
      case None => None
      case Some(members) => Some(Equation(result, members))
  }

  /** The lines read one by one with `read`, in order; None as soon as
      one does not read. */
  function ReadLines<T>(read: string -> Option<T>, lines: seq<string>): Option<seq<T>>
    decreases |lines|
  {
    if |lines| == 0 then Some([])
    else
      match (ReadLines(read, lines[..|lines| - 1]), read(lines[|lines| - 1]))
      case (Some(xs), Some(x)) => Some(xs + [x])
      case _ => None
  }

  /** The lines read when each one reads, and then the i-th value is the
      i-th line's. */
  lemma {:induction false} ReadLinesMeaning<T>(read: string -> Option<T>, lines: seq<string>)
    ensures ReadLines(read, lines).Some? <==> forall i :: 0 <= i < |lines| ==> read(lines[i]).Some?
    ensures ReadLines(read, lines).Some? ==>
              |ReadLines(read, lines).value| == |lines|
              && forall i :: 0 <= i < |lines| ==> read(lines[i]) == Some(ReadLines(read, lines).value[i])
    decreases |lines|
  {
    if |lines| > 0 {
      var init := lines[..|lines| - 1];
      ReadLinesMeaning(read, init);
      assert forall i :: 0 <= i < |init| ==> init[i] == lines[i];
    }
  }

  /** One more line read: its value is appended, or the whole reading
      fails. */
  lemma {:induction false} ReadLinesStep<T>(read: string -> Option<T>, lines: seq<string>, i: nat, xs: seq<T>)
    requires i < |lines| && ReadLines(read, lines[..i]) == Some(xs)
    ensures read(lines[i]).Some? ==> ReadLines(read, lines[..i + 1]) == Some(xs + [read(lines[i]).value])
    ensures read(lines[i]).None? ==> ReadLines(read, lines) == None
  {
    assert lines[..i + 1][..i] == lines[..i];
    if read(lines[i]).None? {
      ReadLinesMeaning(read, lines);
    }
  }

  /** Every line read as an equation, in order. */
  function ReadEquations(lines: seq<string>): Option<seq<Equation>>
  {
    ReadLines(ReadEquation, lines)
  }

  /** `read_input`: one equation per line, in order. */
  method ReadInput(input: string) returns (r: Option<seq<Equation>>)
    ensures r == ReadEquations(Lines(input))
  {
    r := ReadEachLine(Lines(input));
  }

  /** The loop of `read_input` over the lines. */
  method ReadEachLine(lines: seq<string>) returns (r: Option<seq<Equation>>)
    ensures r == ReadEquations(lines)
  {
    var equations: seq<Equation> := [];
    var i := 0;
    while i < |lines|
      invariant 0 <= i <= |lines|
      invariant ReadLines(ReadEquation, lines[..i]) == Some(equations)
    {
      var equation := ReadEquation(lines[i]);
      ReadLinesStep(ReadEquation, lines, i, equations);
      if equation.None? {
        return None;
      }
      equations := equations + [equation.value];
      i := i + 1;
    }
    assert lines[..i] == lines;
    r := Some(equations);
  }

  /** The numbers as to_string writes them. */
  function Written(ms: seq<nat>): (r: seq<string>)
    ensures |r| == |ms| && forall i :: 0 <= i < |ms| ==> r[i] == NatToString(ms[i])
  {
    seq(|ms|, i requires 0 <= i < |ms| => NatToString(ms[i]))
  }

  /** The line an equation is written as: "190: 10 19". */
  function EquationLine(e: Equation): string
  {
    Join([NatToString(e.result) + ":"] + Written(e.members), ' ')
  }

  /** Written numbers are digits only. */
  lemma WrittenDigits(ms: seq<nat>)
    ensures forall i :: 0 <= i < |ms| ==> forall c :: c in Written(ms)[i] ==> IsDigit(c)
  {
    forall i | 0 <= i < |ms|
      ensures forall c :: c in Written(ms)[i] ==> IsDigit(c)
    {
      var w := NatToString(ms[i]);
      assert forall c :: c in w ==> IsDigit(c);
    }
  }

  /** Written numbers parse back one by one. */
  lemma ParseWritten(ms: seq<nat>)
    ensures AllSome(ParseEach(Written(ms))) == Some(ms)
  {
    var xs := ParseEach(Written(ms));
    forall i | 0 <= i < |ms|
      ensures xs[i] == Some(ms[i])
    {
      ParseNatOfNatToString(ms[i]);
    }
    var r := AllSome(xs);
    assert r.Some?;
    assert r.value == ms;
  }

  /** The head piece holding the ':' is skipped; written numbers are not. */
  lemma SkipWritten(head: string, ms: seq<nat>)
    requires ':' in head
    ensures SkipWithColon([head] + Written(ms)) == Written(ms)
  {
    WrittenDigits(ms);
    var pieces := [head] + Written(ms);
    assert pieces[1..] == Written(ms);
    if |ms| > 0 {
      assert ':' !in Written(ms)[0];
    }
  }

  /** Splitting the written line at spaces gives the head and the numbers. */
  lemma SplitWritten(head: string, ms: seq<nat>)
    requires ' ' !in head
    ensures Split(Join([head] + Written(ms), ' '), ' ') == [head] + Written(ms)
  {
    WrittenDigits(ms);
    var pieces := [head] + Written(ms);
    forall i | 0 <= i < |pieces|
      ensures ' ' !in pieces[i]
    {
      if i > 0 {
        assert pieces[i] == Written(ms)[i - 1];
      }
    }
    SplitOfJoin(pieces, ' ');
  }

  /** The written line starts with the head piece and its ':'. */
  lemma WrittenLineStart(head: string, ms: seq<nat>)
    ensures exists tail :: Join([head + ":"] + Written(ms), ' ') == head + ":" + tail
  {
    var pieces := [head + ":"] + Written(ms);
    if |ms| == 0 {
      assert Join(pieces, ' ') == head + ":" + "";
    } else {
      assert pieces[1..] == Written(ms);
      assert Join(pieces, ' ') == head + ":" + ([' '] + Join(Written(ms), ' '));
    }
  }

  /** The text before the ':' of a written equation is its test value. */
  lemma TakeUntilColonOfLine(head: string, tail: string)
    requires AllDigits(head)
    ensures TakeUntilColon(head + ":" + tail) == head
  {
    var line := head + ":" + tail;
    assert line[|head|] == ':' && line[..|head|] == head;
    assert ':' !in head;
  }

  /** Reading a written equation gives it back. */
  lemma ReadEquationOfLine(e: Equation)
    ensures ReadEquation(EquationLine(e)) == Some(e)
  {
    var head := NatToString(e.result);
    var line := EquationLine(e);
    var pieces := [head + ":"] + Written(e.members);
    assert ParseNat(TakeUntilColon(line)) == Some(e.result) by {
      WrittenLineStart(head, e.members);
      var tail :| line == head + ":" + tail;
      TakeUntilColonOfLine(head, tail);
      ParseNatOfNatToString(e.result);
    }
    assert Split(line, ' ') == pieces by {
      assert forall c :: c in head ==> IsDigit(c);
      assert ' ' !in head + ":";
      SplitWritten(head + ":", e.members);
    }
    assert AllSome(ParseEach(SkipWithColon(pieces))) == Some(e.members) by {
      assert ':' in head + ":";
      SkipWritten(head + ":", e.members);
      ParseWritten(e.members);
    }
    ReadEquationOfParts(line, e.result, pieces, e.members);
  }

  lemma {:induction false} ReadEquationOfParts(line: string, result: nat, pieces: seq<string>, members: seq<nat>)
    requires ParseNat(TakeUntilColon(line)) == Some(result)
    requires Split(line, ' ') == pieces
    requires AllSome(ParseEach(SkipWithColon(pieces))) == Some(members)
    ensures ReadEquation(line) == Some(Equation(result, members))
  {
  }

  /** A written equation is a line Lines can give back. */
  lemma EquationLineIsPlain(e: Equation)
    ensures PlainLine(EquationLine(e))
  {
    var pieces := [NatToString(e.result) + ":"] + Written(e.members);
    WrittenDigits(e.members);
    var head := NatToString(e.result);
    assert forall c :: c in head ==> IsDigit(c);
    forall i | 0 <= i < |pieces|
      ensures forall c :: c in pieces[i] ==> IsDigit(c) || c == ':'
    {
      if i > 0 {
        assert pieces[i] == Written(e.members)[i - 1];
      }
    }
    JoinOfDigitLines(pieces);
  }

  /** Pieces of digits and ':' joined with spaces hold no newline and do
      not end in a carriage return. */
  lemma {:induction false} JoinOfDigitLines(pieces: seq<string>)
    requires |pieces| >= 1
    requires forall i :: 0 <= i < |pieces| ==> forall c :: c in pieces[i] ==> IsDigit(c) || c == ':'
    requires |pieces[|pieces| - 1]| > 0
    ensures PlainLine(Join(pieces, ' '))
    decreases |pieces|
  {
    if |pieces| > 1 {
      JoinOfDigitLines(pieces[1..]);
      var rest := Join(pieces[1..], ' ');
      assert Join(pieces, ' ') == pieces[0] + [' '] + rest;
      assert forall c :: c in pieces[0] ==> IsDigit(c) || c == ':';
    } else {
      assert forall c :: c in pieces[0] ==> IsDigit(c) || c == ':';
      assert pieces[0][|pieces[0]| - 1] in pieces[0];
    }
  }

  /** Equations written one per line, each line ending in a newline, read
      back as the same equations. */
  lemma ReadInputOfWritten(es: seq<Equation>)
    ensures ReadEquations(Lines(Join(seq(|es|, i requires 0 <= i < |es| => EquationLine(es[i])) + [""], '\n')))
            == Some(es)
  {
    var ls := seq(|es|, i requires 0 <= i < |es| => EquationLine(es[i]));
    forall i | 0 <= i < |ls|
      ensures PlainLine(ls[i]) && ReadEquation(ls[i]) == Some(es[i])
    {
      EquationLineIsPlain(es[i]);
      ReadEquationOfLine(es[i]);
    }
    LinesOfNewlineTerminated(ls);
    ReadLinesMeaning(ReadEquation, ls);
    var r := ReadEquations(ls);
    assert r.Some?;
    assert r.value == es;
  }

  // ---------------------------------------------------------------------
  // all values of one equation
  // ---------------------------------------------------------------------

  /** The values for one more number: for each earlier value in order, its
      sum with the number, its product and their concatenation. */
  function Expand(results: seq<nat>, member: nat): (r: seq<nat>)
    ensures |r| == 3 * |results|
    decreases |results|
  {
    if |results| == 0 then []
    else
      var last := results[|results| - 1];
      Expand(results[..|results| - 1], member)
      + [Add(last, member), Multiply(last, member), Shifted(last, member)]
  }

  /** Each earlier value gives three consecutive values, in the order add,
      multiply, concatenate. */
  lemma {:induction false} ExpandAt(results: seq<nat>, member: nat, i: nat, op: Operator)
    requires i < |results|
    ensures 3 * i + OperatorCode(op) < |Expand(results, member)|
    ensures Expand(results, member)[3 * i + OperatorCode(op)] == Apply(op, results[i], member)
    decreases |results|
  {
    var n := |results| - 1;
    if i < n {
      ExpandAt(results[..n], member, i, op);
    }
  }

  /** What `calculate_one_equation` lists for the numbers: the first
      number alone, then each further number expands the list. */
  function Results(members: seq<nat>): seq<nat>
    decreases |members|
  {
    if |members| == 0 then []
    else
      var earlier := Results(members[..|members| - 1]);
      var member := members[|members| - 1];
      if |earlier| == 0 then [member] else Expand(earlier, member)
  }

  function Pow3(k: nat): (p: nat)
    ensures p >= 1
  {
    if k == 0 then 1 else 3 * Pow3(k - 1)
  }

  /** No numbers give no values; n numbers give 3^(n-1) values. */
  lemma {:induction false} ResultsCount(members: seq<nat>)
    ensures |Results(members)| == if |members| == 0 then 0 else Pow3(|members| - 1)
    decreases |members|
  {
    if |members| > 0 {
      ResultsCount(members[..|members| - 1]);
    }
  }

  /** The numbers combined strictly left to right: ops[i] sits between
      members[i] and members[i + 1]. */
  function Evaluate(members: seq<nat>, ops: seq<Operator>): nat
    requires |members| >= 1 && |ops| == |members| - 1
    decreases |ops|
  {
    if |ops| == 0 then members[0]
    else
      Apply(ops[|ops| - 1], Evaluate(members[..|members| - 1], ops[..|ops| - 1]), members[|members| - 1])
  }

  function OperatorCode(op: Operator): nat
  {
    match op
    case Plus => 0
    case Times => 1
    case Concat => 2
  }

  /** The position at which an operator choice is listed: the choices read
      as a base-3 number, the first operator the most significant digit. */
  function ChoiceIndex(ops: seq<Operator>): nat
    decreases |ops|
  {
    if |ops| == 0 then 0 else 3 * ChoiceIndex(ops[..|ops| - 1]) + OperatorCode(ops[|ops| - 1])
  }

  /** The operator choice listed at position k among n operators. */
  function ChoiceAt(k: nat, n: nat): (ops: seq<Operator>)
    ensures |ops| == n
    decreases n
  {
    if n == 0 then []
    else
      var op := if k % 3 == 0 then Plus else if k % 3 == 1 then Times else Concat;
      ChoiceAt(k / 3, n - 1) + [op]
  }

  lemma {:induction false} ChoiceIndexOfChoiceAt(k: nat, n: nat)
    requires k < Pow3(n)
    ensures ChoiceIndex(ChoiceAt(k, n)) == k
    decreases n
  {
    if n > 0 {
      var ops := ChoiceAt(k, n);
      ChoiceIndexOfChoiceAt(k / 3, n - 1);
      assert ops[..n - 1] == ChoiceAt(k / 3, n - 1);
    }
  }

  /** The value listed at the position of an operator choice is that
      choice evaluated left to right. */
  lemma {:induction false} ResultsAt(members: seq<nat>, ops: seq<Operator>)
    requires |members| >= 1 && |ops| == |members| - 1
    ensures ChoiceIndex(ops) < |Results(members)|
    ensures Results(members)[ChoiceIndex(ops)] == Evaluate(members, ops)
    decreases |ops|
  {
    var n := |members| - 1;
    ResultsCount(members);
    if |ops| > 0 {
      var earlierMembers := members[..n];
      var earlierOps := ops[..|ops| - 1];
      ResultsAt(earlierMembers, earlierOps);
      ResultsCount(earlierMembers);
      var i := ChoiceIndex(earlierOps);
      var earlier := Results(earlierMembers);
      assert Results(members) == Expand(earlier, members[n]);
      assert ChoiceIndex(ops) == 3 * i + OperatorCode(ops[|ops| - 1]);
      ExpandAt(earlier, members[n], i, ops[|ops| - 1]);
    }
  }

  /** The value listed at position k is the choice listed there,
      evaluated. */
  lemma {:induction false} ListedIsEvaluation(members: seq<nat>, k: nat)
    requires k < |Results(members)|
    ensures |members| >= 1
    ensures Evaluate(members, ChoiceAt(k, |members| - 1)) == Results(members)[k]
  {
    ResultsCount(members);
    ChoiceIndexOfChoiceAt(k, |members| - 1);
    ResultsAt(members, ChoiceAt(k, |members| - 1));
  }

  /** A value is listed exactly when some choice of operators gives it. */
  lemma {:induction false} ResultsMeaning(members: seq<nat>, x: nat)
    ensures x in Results(members) <==>
              |members| >= 1 && exists ops :: |ops| == |members| - 1 && Evaluate(members, ops) == x
  {
    var rs := Results(members);
    if x in rs {
      var k :| 0 <= k < |rs| && rs[k] == x;
      ListedIsEvaluation(members, k);
    }
    if |members| >= 1 && exists ops :: |ops| == |members| - 1 && Evaluate(members, ops) == x {
      var ops :| |ops| == |members| - 1 && Evaluate(members, ops) == x;
      ResultsAt(members, ops);
    }
  }

  /** One pass of the inner loop of `calculate_one_equation`. */
  method ExpandResults(results: seq<nat>, member: nat) returns (resultsForThisMember: seq<nat>)
    ensures resultsForThisMember == Expand(results, member)
  {
    resultsForThisMember := [];
    for i := 0 to |results|
      invariant resultsForThisMember == Expand(results[..i], member)
    {
      assert results[..i + 1][..i] == results[..i];
      var result := results[i];
      resultsForThisMember := resultsForThisMember + [Add(result, member)];
      resultsForThisMember := resultsForThisMember + [Multiply(result, member)];
      var concatenated := Concatenate(result, member);
      resultsForThisMember := resultsForThisMember + [concatenated];
    }
    assert results[..|results|] == results;
  }

  /** `calculate_one_equation`: every value the operator choices give, in
      the order the choices are listed. */
  method CalculateOneEquation(members: seq<nat>) returns (results: seq<nat>)
    ensures results == Results(members)
  {
    results := [];
    for i := 0 to |members|
      invariant results == Results(members[..i])
    {
      assert members[..i + 1][..i] == members[..i];
      var member := members[i];
      if |results| == 0 {
        results := results + [member];
        continue;
      }
      results := ExpandResults(results, member);
    }
    assert members[..|members|] == members;
  }

  /** The listing of `calculate_one_equation` for [1, 2, 3]. */
  lemma {:induction false} ResultsExample(members: seq<nat>)
    requires members == [1, 2, 3]
    ensures Results(members) == [6, 9, 33, 5, 6, 23, 15, 36, 123]
  {
    assert members[..2] == [1, 2];
    ResultsOfTwo(1, 2);
    var earlier := [3, 2, 12];
    assert Results(members) == Expand(earlier, 3);
    assert earlier[..2] == [3, 2] && earlier[..1] == [3] && earlier[..0] == [];
    assert Expand([3], 3) == [6, 9, 33];
    assert Expand([3, 2], 3) == [6, 9, 33, 5, 6, 23];
  }

  // ---------------------------------------------------------------------
  // the calibration total
  // ---------------------------------------------------------------------

  /** An equation some operator choice makes true. */
  predicate Solvable(e: Equation)
  {
    e.result in Results(e.members)
  }

  /** Solvable means: some choice of operators between the numbers, taken
      left to right, gives the test value. */
  lemma SolvableMeaning(e: Equation)
    ensures Solvable(e) <==>
              |e.members| >= 1 && exists ops :: |ops| == |e.members| - 1 && Evaluate(e.members, ops) == e.result
  {
    ResultsMeaning(e.members, e.result);
  }

  /** `valid_equations`: the solvable equations, in order, each once. */
  function ValidEquations(es: seq<Equation>): seq<Equation>
    decreases |es|
  {
    if |es| == 0 then []
    else
      var earlier := ValidEquations(es[..|es| - 1]);
      if Solvable(es[|es| - 1]) then earlier + [es[|es| - 1]] else earlier
  }

  /** The sum of the test values. */
  function SumOfResults(es: seq<Equation>): nat
    decreases |es|
  {
    if |es| == 0 then 0 else SumOfResults(es[..|es| - 1]) + es[|es| - 1].result
  }

  /** The calibration total of the equations. */
  function Calibration(es: seq<Equation>): nat
  {
    SumOfResults(ValidEquations(es))
  }

  /** The inner loop of `calculate_calibration`: whether the test value is
      among the values, stopping at the first match. */
  method MatchesSomeResult(result: nat, results: seq<nat>) returns (found: bool)
    ensures found <==> result in results
  {
    for i := 0 to |results|
      invariant result !in results[..i]
    {
      if result == results[i] {
        return true;
      }
      assert results[..i + 1] == results[..i] + [results[i]];
    }
    assert results[..|results|] == results;
    return false;
  }

  /** The outer loop of `calculate_calibration`: the solvable equations,
      each pushed once however many operator choices match. */
  method CollectValid(equations: seq<Equation>) returns (validEquations: seq<Equation>)
    ensures validEquations == ValidEquations(equations)
  {
    validEquations := [];
    for i := 0 to |equations|
      invariant validEquations == ValidEquations(equations[..i])
    {
      assert equations[..i + 1][..i] == equations[..i];
      var equation := equations[i];
      var results := CalculateOneEquation(equation.members);
      var found := MatchesSomeResult(equation.result, results);
      if found {
        validEquations := validEquations + [equation];
      }
    }
    assert equations[..|equations|] == equations;
  }

  /** The answer for a puzzle input; None where `read_input` panics. */
  function CalibrationOf(input: string): Option<nat>
  {
    match ReadEquations(Lines(input))
    case None => None
    case Some(es) => Some(Calibration(es))
  }

  /** `calculate_calibration`. */
  method CalculateCalibration(input: string) returns (r: Option<nat>)
    ensures r == CalibrationOf(input)
  {
    var equations := ReadInput(input);
    if equations.None? {
      return None;
    }
    var validEquations := CollectValid(equations.value);
    r := Some(SumOfResults(validEquations));
  }

  /** Filtering a list of equations filters each part. */
  lemma {:induction false} ValidEquationsConcat(a: seq<Equation>, b: seq<Equation>)
    ensures ValidEquations(a + b) == ValidEquations(a) + ValidEquations(b)
    decreases |b|
  {
    if |b| > 0 {
      var k := |b| - 1;
      assert (a + b)[..|a + b| - 1] == a + b[..k];
      assert (a + b)[|a + b| - 1] == b[k];
      ValidEquationsConcat(a, b[..k]);
    } else {
      assert a + b == a;
    }
  }

  lemma {:induction false} SumOfResultsConcat(a: seq<Equation>, b: seq<Equation>)
    ensures SumOfResults(a + b) == SumOfResults(a) + SumOfResults(b)
    decreases |b|
  {
    if |b| > 0 {
      var k := |b| - 1;
      assert (a + b)[..|a + b| - 1] == a + b[..k];
      assert (a + b)[|a + b| - 1] == b[k];
      SumOfResultsConcat(a, b[..k]);
    } else {
      assert a + b == a;
    }
  }

  /** The total adds up over a split of the equations. */
  lemma CalibrationAdds(es: seq<Equation>, more: seq<Equation>)
    ensures Calibration(es + more) == Calibration(es) + Calibration(more)
  {
    ValidEquationsConcat(es, more);
    SumOfResultsConcat(ValidEquations(es), ValidEquations(more));
  }

  /** One equation alone adds its test value once when it is solvable and
      nothing otherwise, however many operator choices give that value. */
  lemma CalibrationOfOne(e: Equation)
    ensures Calibration([e]) == if Solvable(e) then e.result else 0
  {
    assert [e][..0] == [];
    assert ValidEquations([e]) == if Solvable(e) then [e] else [];
    assert SumOfResults([e]) == e.result;
  }

  lemma ResultsOfTwo(a: nat, b: nat)
    ensures Results([a, b]) == [a + b, a * b, Shifted(a, b)]
  {
    assert [a, b][..1] == [a];
    assert Results([a]) == [a];
  }

  /** 190 = 10 * 19 is solvable. */
  lemma ExampleSolvable190()
    ensures Solvable(Equation(190, [10, 19]))
  {
    ResultsOfTwo(10, 19);
  }

  /** 83 = 17 ? 5 is not: 22, 85 and 175 are all the values. */
  lemma ExampleUnsolvable83()
    ensures !Solvable(Equation(83, [17, 5]))
  {
    ResultsOfTwo(17, 5);
  }

  /** 156 = 15 || 6 is solvable only with concatenation. */
  lemma ExampleSolvable156()
    ensures Solvable(Equation(156, [15, 6]))
  {
    ResultsOfTwo(15, 6);
  }

  /** Three equations of the puzzle's example: 190 and 156 count, 83 does
      not. */
  lemma CalibrationExample(es: seq<Equation>)
    requires es == [Equation(190, [10, 19]), Equation(83, [17, 5]), Equation(156, [15, 6])]
    ensures Calibration(es) == 346
  {
    ExampleSolvable190();
    ExampleUnsolvable83();
    ExampleSolvable156();
    CalibrationOfOne(es[0]);
    CalibrationOfOne(es[1]);
    CalibrationOfOne(es[2]);
    CalibrationAdds([es[0]], [es[1]]);
    assert [es[0]] + [es[1]] == [es[0], es[1]];
    CalibrationAdds([es[0], es[1]], [es[2]]);
    assert es == [es[0], es[1]] + [es[2]];
  }
}
