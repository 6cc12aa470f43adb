/** The pieces of Rust's `str` API that the puzzle solutions lean on:
    `split`, `lines`, `trim`, `to_string` for integers and `parse` for
    integers, and lists kept free of duplicates. Every day module imports
    this one; nothing here is specific to a puzzle. Integer widths (u32, u64, i32) are not bounded: the model
    works on mathematical integers. */
module Text {

  datatype Option<+T> = None | Some(value: T)

  // ---------------------------------------------------------------------
  // split / join
  // ---------------------------------------------------------------------

  /** `s.split(sep)`: the pieces between separators, in order, empty pieces
      included, so there is always one more piece than separators. */
  function Split(s: string, sep: char): (r: seq<string>)
    ensures |r| >= 1
    ensures forall i :: 0 <= i < |r| ==> sep !in r[i]
    decreases |s|
  {
    if |s| == 0 then [""]
    else if s[0] == sep then [""] + Split(s[1..], sep)
    else
      var rest := Split(s[1..], sep);
      [[s[0]] + rest[0]] + rest[1..]
  }

  /** The inverse of Split: pieces glued back with the separator. */
  function Join(pieces: seq<string>, sep: char): string
    requires |pieces| >= 1
    decreases |pieces|
  {
    if |pieces| == 1 then pieces[0] else pieces[0] + [sep] + Join(pieces[1..], sep)
  }

  /** Gluing the pieces of a split gives back the original text. */
  lemma {:induction false} JoinOfSplit(s: string, sep: char)
    ensures Join(Split(s, sep), sep) == s
    decreases |s|
  {
    if |s| == 0 {
    } else if s[0] == sep {
      JoinOfSplit(s[1..], sep);
      assert s == [sep] + s[1..];
    } else {
      var rest := Split(s[1..], sep);
      JoinOfSplit(s[1..], sep);
      if |rest| == 1 {
        assert s == [s[0]] + s[1..];
      } else {
        assert Join(rest, sep) == rest[0] + [sep] + Join(rest[1..], sep);
        assert Split(s, sep) == [[s[0]] + rest[0]] + rest[1..];
        assert Join(Split(s, sep), sep) == ([s[0]] + rest[0]) + [sep] + Join(rest[1..], sep);
        assert s == [s[0]] + s[1..];
      }
    }
  }

  /** A text without the separator is a single piece. */
  lemma {:induction false} SplitWithoutSeparator(s: string, sep: char)
    requires sep !in s
    ensures Split(s, sep) == [s]
    decreases |s|
  {
    if |s| > 0 {
      SplitWithoutSeparator(s[1..], sep);
      assert s == [s[0]] + s[1..];
    }
  }

  /** Splitting stops at the first separator and starts afresh after it. */
  lemma {:induction false} SplitAtSeparator(a: string, sep: char, b: string)
    requires sep !in a
    ensures Split(a + [sep] + b, sep) == [a] + Split(b, sep)
    decreases |a|
  {
    if |a| == 0 {
      assert a + [sep] + b == [sep] + b;
      assert ([sep] + b)[1..] == b;
    } else {
      var s := a + [sep] + b;
      assert s[0] == a[0];
      assert s[1..] == a[1..] + [sep] + b;
      SplitAtSeparator(a[1..], sep, b);
      assert [a[0]] + a[1..] == a;
    }
  }

  /** Splitting the joined pieces gives back the pieces, as long as no
      piece holds the separator. */
  lemma {:induction false} SplitOfJoin(pieces: seq<string>, sep: char)
    requires |pieces| >= 1
    requires forall i :: 0 <= i < |pieces| ==> sep !in pieces[i]
    ensures Split(Join(pieces, sep), sep) == pieces
    decreases |pieces|
  {
    if |pieces| == 1 {
      SplitWithoutSeparator(pieces[0], sep);
    } else {
      SplitOfJoin(pieces[1..], sep);
      SplitAtSeparator(pieces[0], sep, Join(pieces[1..], sep));
      assert [pieces[0]] + pieces[1..] == pieces;
    }
  }

  // ---------------------------------------------------------------------
  // lines
  // ---------------------------------------------------------------------

  /** Drops one trailing carriage return. */
  function StripCR(line: string): string
  {
    if |line| > 0 && line[|line| - 1] == '\r' then line[..|line| - 1] else line
  }

  /** `s.lines()`: split at '\n', a '\r' just before a '\n' belongs to the
      line ending, and a final empty piece (text ending in a newline, or the
      empty text) is not a line. */
  function Lines(s: string): (r: seq<string>)
    ensures forall i :: 0 <= i < |r| ==> '\n' !in r[i]
    ensures var pieces := Split(s, '\n');
            && |r| == (if pieces[|pieces| - 1] == "" then |pieces| - 1 else |pieces|)
            && forall i :: 0 <= i < |pieces| - 1 ==> r[i] == StripCR(pieces[i])
  {
    var pieces := Split(s, '\n');
    var last := pieces[|pieces| - 1];
    var body := seq(|pieces| - 1, i requires 0 <= i < |pieces| - 1 => StripCR(pieces[i]));
    if last == "" then body else body + [last]
  }

  /** A line that can be written out and read back by Lines. */
  predicate PlainLine(line: string)
  {
    '\n' !in line && (|line| > 0 ==> line[|line| - 1] != '\r')
  }

  /** Writing lines each followed by a newline and reading them back with
      Lines gives the same lines. */
  lemma {:induction false} LinesOfNewlineTerminated(ls: seq<string>)
    requires forall i :: 0 <= i < |ls| ==> PlainLine(ls[i])
    ensures Lines(Join(ls + [""], '\n')) == ls
  {
    var pieces := ls + [""];
    assert forall i :: 0 <= i < |pieces| ==> '\n' !in pieces[i];
    SplitOfJoin(pieces, '\n');
    var text := Join(pieces, '\n');
    var split := Split(text, '\n');
    assert split == pieces;
    var r := Lines(text);
    assert |r| == |ls|;
    forall i | 0 <= i < |ls| ensures r[i] == ls[i] {
      assert r[i] == StripCR(split[i]);
      assert split[i] == ls[i];
      assert StripCR(ls[i]) == ls[i];
    }
    assert r == ls;
  }

  // ---------------------------------------------------------------------
  // trim
  // ---------------------------------------------------------------------

  /** Rust's `char::is_whitespace`: the Unicode White_Space property. */
  predicate IsWhitespace(c: char)
  {
    ('\t' <= c <= '\r') || c == ' ' || c == '\U{85}' || c == '\U{A0}' || c == '\U{1680}'
    || ('\U{2000}' <= c <= '\U{200A}') || c == '\U{2028}' || c == '\U{2029}'
    || c == '\U{202F}' || c == '\U{205F}' || c == '\U{3000}'
  }

  /** `trim_start`: what remains after the leading whitespace. */
  function TrimStart(s: string): (r: string)
    ensures |r| <= |s|
    ensures |r| > 0 ==> !IsWhitespace(r[0])
    decreases |s|
  {
    if |s| > 0 && IsWhitespace(s[0]) then TrimStart(s[1..]) else s
  }

  /** `trim_end`: what remains before the trailing whitespace. */
  function TrimEnd(s: string): (r: string)
    ensures |r| <= |s|
    ensures |r| > 0 ==> !IsWhitespace(r[|r| - 1]) && r[0] == s[0]
    decreases |s|
  {
    if |s| > 0 && IsWhitespace(s[|s| - 1]) then TrimEnd(s[..|s| - 1]) else s
  }

  /** `trim`: the text between the leading and the trailing whitespace. */
  function Trim(s: string): (r: string)
    ensures |r| <= |s|
    ensures |r| > 0 ==> !IsWhitespace(r[0]) && !IsWhitespace(r[|r| - 1])
  {
    TrimEnd(TrimStart(s))
  }

  /** trim_start drops a prefix made of whitespace only. */
  lemma {:induction false} TrimStartDropsWhitespace(s: string)
    ensures var r := TrimStart(s);
            r == s[|s| - |r|..] && AllWhitespace(s[..|s| - |r|])
    decreases |s|
  {
    if |s| > 0 && IsWhitespace(s[0]) {
      TrimStartDropsWhitespace(s[1..]);
      var r := TrimStart(s[1..]);
      assert s[..|s| - |r|] == [s[0]] + s[1..][..|s[1..]| - |r|];
    }
  }

  /** trim_end drops a suffix made of whitespace only. */
  lemma {:induction false} TrimEndDropsWhitespace(s: string)
    ensures var r := TrimEnd(s);
            r == s[..|r|] && AllWhitespace(s[|r|..])
    decreases |s|
  {
    if |s| > 0 && IsWhitespace(s[|s| - 1]) {
      var s' := s[..|s| - 1];
      TrimEndDropsWhitespace(s');
      var r := TrimEnd(s');
      assert s[|r|..] == s'[|r|..] + [s[|s| - 1]];
    }
  }

  /** trim keeps a contiguous middle part and drops only whitespace around
      it. */
  lemma TrimIsInfix(s: string)
    ensures var r := Trim(s);
            exists i :: 0 <= i <= |s| - |r| && r == s[i..i + |r|]
                        && AllWhitespace(s[..i]) && AllWhitespace(s[i + |r|..])
  {
    var t := TrimStart(s);
    var r := TrimEnd(t);
    TrimStartDropsWhitespace(s);
    TrimEndDropsWhitespace(t);
    var i := |s| - |t|;
    assert r == s[i..i + |r|];
    assert s[i + |r|..] == t[|r|..];
    assert 0 <= i <= |s| - |r| && r == s[i..i + |r|]
           && AllWhitespace(s[..i]) && AllWhitespace(s[i + |r|..]);
  }

  predicate AllWhitespace(s: string)
  {
    forall k :: 0 <= k < |s| ==> IsWhitespace(s[k])
  }

  lemma {:induction false} TrimStartOfPadded(ws: string, t: string)
    requires AllWhitespace(ws)
    requires |t| > 0 && !IsWhitespace(t[0])
    ensures TrimStart(ws + t) == t
    decreases |ws|
  {
    if |ws| > 0 {
      assert (ws + t)[1..] == ws[1..] + t;
      TrimStartOfPadded(ws[1..], t);
    } else {
      assert ws + t == t;
    }
  }

  lemma {:induction false} TrimEndOfPadded(t: string, ws: string)
    requires AllWhitespace(ws)
    requires |t| > 0 && !IsWhitespace(t[|t| - 1])
    ensures TrimEnd(t + ws) == t
    decreases |ws|
  {
    if |ws| > 0 {
      assert (t + ws)[..|t + ws| - 1] == t + ws[..|ws| - 1];
      TrimEndOfPadded(t, ws[..|ws| - 1]);
    } else {
      assert t + ws == t;
    }
  }

  /** Trim removes exactly the whitespace padding around a text that
      starts and ends with something else. */
  lemma TrimOfPadded(ws: string, t: string, ws': string)
    requires AllWhitespace(ws) && AllWhitespace(ws')
    requires |t| > 0 && !IsWhitespace(t[0]) && !IsWhitespace(t[|t| - 1])
    ensures Trim(ws + t + ws') == t
  {
    assert ws + t + ws' == ws + (t + ws');
    assert (t + ws')[0] == t[0];
    TrimStartOfPadded(ws, t + ws');
    TrimEndOfPadded(t, ws');
  }

  // ---------------------------------------------------------------------
  // decimal numbers
  // ---------------------------------------------------------------------

  predicate IsDigit(c: char)
  {
    '0' <= c <= '9'
  }

  predicate AllDigits(s: string)
  {
    forall i :: 0 <= i < |s| ==> IsDigit(s[i])
  }

  function DigitValue(c: char): (d: nat)
    requires IsDigit(c)
    ensures d < 10
  {
    c as int - '0' as int
  }

  function DigitChar(d: nat): (c: char)
    requires d < 10
    ensures IsDigit(c) && DigitValue(c) == d
  {
    ('0' as int + d) as char
  }

  function Pow10(k: nat): (p: nat)
    ensures p >= 1
  {
    if k == 0 then 1 else 10 * Pow10(k - 1)
  }

  /** The value of a string of decimal digits, most significant first. */
  function DigitsValue(s: string): nat
    requires AllDigits(s)
    decreases |s|
  {
    if |s| == 0 then 0 else DigitsValue(s[..|s| - 1]) * 10 + DigitValue(s[|s| - 1])
  }

  /** `n.to_string()` for an unsigned integer: no sign, no leading zero. */
  function NatToString(n: nat): (r: string)
    ensures |r| >= 1 && AllDigits(r)
    ensures |r| > 1 ==> r[0] != '0'
    decreases n
  {
    if n < 10 then [DigitChar(n)] else NatToString(n / 10) + [DigitChar(n % 10)]
  }

  /** Reading back what NatToString wrote gives the number. */
  lemma {:induction false} DigitsValueOfNatToString(n: nat)
    ensures DigitsValue(NatToString(n)) == n
    decreases n
  {
    if n >= 10 {
      var s := NatToString(n);
      DigitsValueOfNatToString(n / 10);
      assert s[..|s| - 1] == NatToString(n / 10);
    }
  }

  /** Digits written one after the other: the value of the left part is
      shifted by as many decimal places as the right part has digits. */
  lemma {:induction false} DigitsValueOfConcat(a: string, b: string)
    requires AllDigits(a) && AllDigits(b)
    ensures AllDigits(a + b)
    ensures DigitsValue(a + b) == DigitsValue(a) * Pow10(|b|) + DigitsValue(b)
    decreases |b|
  {
    var ab := a + b;
    assert AllDigits(ab);
    if |b| == 0 {
      assert ab == a;
    } else {
      var b' := b[..|b| - 1];
      assert ab[..|ab| - 1] == a + b';
      DigitsValueOfConcat(a, b');
      var x, p, y, d := DigitsValue(a), Pow10(|b'|), DigitsValue(b'), DigitValue(b[|b| - 1]);
      assert b[..|b| - 1] == b' && b[|b| - 1] == ab[|ab| - 1];
      assert DigitsValue(b) == y * 10 + d;
      assert DigitsValue(ab) == (x * p + y) * 10 + d;
      assert Pow10(|b|) == 10 * p;
      ShiftDecimal(x, p, y, d);
    }
  }

  lemma ShiftDecimal(x: int, p: int, y: int, d: int)
    ensures (x * p + y) * 10 + d == x * (10 * p) + (y * 10 + d)
  {
  }

  /** `s.parse::<u64>()`: an optional '+' and at least one decimal digit.
      Overflow past 64 bits is not modelled. */
  function ParseNat(s: string): (r: Option<nat>)
    ensures r.Some? <==> (var d := if |s| > 0 && s[0] == '+' then s[1..] else s;
                          |d| > 0 && AllDigits(d))
  {
    var digits := if |s| > 0 && s[0] == '+' then s[1..] else s;
    if |digits| > 0 && AllDigits(digits) then Some(DigitsValue(digits)) else None
  }

  /** `n.to_string()` for a signed integer. */
  function IntToString(i: int): string
  {
    if i < 0 then "-" + NatToString(-i) else NatToString(i)
  }

  /** `s.parse::<i32>()`: an optional '+' or '-' and at least one decimal
      digit. Overflow past 32 bits is not modelled. */
  function ParseInt(s: string): (r: Option<int>)
    ensures r.Some? ==> |s| > 0
    ensures |s| > 0 && IsDigit(s[0]) ==> r == ParseNat(s)
  {
    if |s| > 0 && s[0] == '-' then
      if |s| > 1 && AllDigits(s[1..]) then Some(0 - DigitsValue(s[1..]) as int) else None
    else
      match ParseNat(s)
      case None => None
      case Some(n) => Some(n)
  }

  /** Parsing what to_string wrote gives the number back. */
  lemma {:induction false} ParseNatOfNatToString(n: nat)
    ensures ParseNat(NatToString(n)) == Some(n)
  {
    DigitsValueOfNatToString(n);
  }

  lemma {:induction false} ParseIntOfNatToString(n: nat)
    ensures ParseInt(NatToString(n)) == Some(n)
  {
    var s := NatToString(n);
    assert IsDigit(s[0]);
    ParseNatOfNatToString(n);
  }

  lemma {:induction false} ParseIntOfIntToString(i: int)
    ensures ParseInt(IntToString(i)) == Some(i)
  {
    if i < 0 {
      ParseIntOfNegative(-i);
    } else {
      ParseIntOfNatToString(i);
    }
  }

  /** A minus sign in front of what NatToString wrote reads back as the
      negated number. */
  lemma {:induction false} ParseIntOfNegative(n: nat)
    ensures ParseInt("-" + NatToString(n)) == Some(-(n as int))
  {
    var d := NatToString(n);
    var s := "-" + d;
    assert s[0] == '-' && s[1..] == d;
    DigitsValueOfNatToString(n);
  }

  /** What to_string writes for an integer is not empty, holds no space,
      and neither starts nor ends with whitespace. */
  lemma IntToStringShape(i: int)
    ensures |IntToString(i)| > 0
    ensures ' ' !in IntToString(i) && ',' !in IntToString(i)
    ensures !IsWhitespace(IntToString(i)[0])
    ensures !IsWhitespace(IntToString(i)[|IntToString(i)| - 1])
  {
    var s := IntToString(i);
    if i < 0 {
      var n := NatToString(-i);
      assert s == "-" + n;
      assert s[|s| - 1] == n[|n| - 1];
      assert forall k :: 1 <= k < |s| ==> s[k] == n[k - 1];
    }
  }

  // ---------------------------------------------------------------------
  // searching
  // ---------------------------------------------------------------------

  /** `s.find(c)`: the index of the first occurrence of a character. */
  function FindChar(s: string, c: char): (r: Option<nat>)
    ensures r.Some? ==> r.value < |s| && s[r.value] == c && c !in s[..r.value]
    ensures r.None? <==> c !in s
    decreases |s|
  {
    if |s| == 0 then None
    else if s[0] == c then Some(0)
    else match FindChar(s[1..], c)
      case None => None
      case Some(k) =>
        assert s[..k + 1] == [s[0]] + s[1..][..k];
        Some(k + 1)
  }

  /** The first c is at k when s has c at k and none before. */
  lemma FindCharAt(s: string, c: char, k: nat)
    requires k < |s| && s[k] == c && c !in s[..k]
    ensures FindChar(s, c) == Some(k)
  {
    assert s[k] == c;
  }

  /** The first c of a text that starts with c-free s followed by c is
      the one right after s. */
  lemma {:induction false} FindCharAfter(s: string, c: char, rest: string)
    requires c !in s && |rest| > 0 && rest[0] == c
    ensures FindChar(s + rest, c) == Some(|s|)
  {
    var line := s + rest;
    assert line[|s|] == c;
  }

  // ---------------------------------------------------------------------
  // collecting results
  // ---------------------------------------------------------------------

  /** `collect::<Option<Vec<_>>>()`: all the values when every entry is
      Some, None as soon as one is None. */
  function AllSome<T>(xs: seq<Option<T>>): (r: Option<seq<T>>)
    ensures r.Some? <==> forall i :: 0 <= i < |xs| ==> xs[i].Some?
    ensures r.Some? ==> |r.value| == |xs| && forall i :: 0 <= i < |xs| ==> xs[i] == Some(r.value[i])
    decreases |xs|
  {
    if |xs| == 0 then Some([])
    else
      match (AllSome(xs[..|xs| - 1]), xs[|xs| - 1])
      case (Some(vs), Some(v)) => Some(vs + [v])
      case (None, _) => assert xs[..|xs| - 1] == xs[..|xs| - 1]; None
      case (_, None) => None
  }

  // ---------------------------------------------------------------------
  // lists kept free of duplicates with `Vec::contains`
  // ---------------------------------------------------------------------

  /** No element occurs twice. */
  predicate NoDuplicates<T(==)>(s: seq<T>)
  {
    forall p, q :: 0 <= p < q < |s| ==> s[p] != s[q]
  }

  /** Concatenation is associative (stated once, so that a proof about an
      accumulator does not have to find it by extensionality). */
  lemma ConcatAssoc<T>(a: seq<T>, b: seq<T>, c: seq<T>)
    ensures (a + b) + c == a + (b + c)
  {
  }

  /** Two lists without duplicates and without a common element join into
      one without duplicates. */
  lemma NoDuplicatesConcat<T>(a: seq<T>, b: seq<T>)
    requires NoDuplicates(a) && NoDuplicates(b)
    requires forall x :: x in a ==> x !in b
    ensures NoDuplicates(a + b)
  {
    forall p, q | 0 <= p < q < |a + b|
      ensures (a + b)[p] != (a + b)[q]
    {
      if p < |a| && q >= |a| {
        assert (a + b)[p] in a && (a + b)[q] in b;
      }
    }
  }

  /** The lists f(0), ..., f(n - 1), one after the other. */
  function Concat<T>(f: nat -> seq<T>, n: nat): seq<T>
  {
    if n == 0 then [] else Concat(f, n - 1) + f(n - 1)
  }

  /** Lists that are all empty concatenate to the empty list. */
  lemma {:induction false} ConcatOfEmpty<T>(f: nat -> seq<T>, n: nat)
    requires forall k: nat :: k < n ==> f(k) == []
    ensures Concat(f, n) == []
  {
    if n > 0 {
      ConcatOfEmpty(f, n - 1);
    }
  }

  /** Everything in one of the lists is in the concatenation. */
  lemma {:induction false} ConcatHas<T>(f: nat -> seq<T>, n: nat, k: nat, q: T)
    requires k < n && q in f(k)
    ensures q in Concat(f, n)
  {
    if k < n - 1 {
      ConcatHas(f, n - 1, k, q);
    }
  }

  /** Everything in the concatenation is in one of the lists. */
  lemma {:induction false} ConcatFrom<T>(f: nat -> seq<T>, n: nat, q: T) returns (k: nat)
    requires q in Concat(f, n)
    ensures k < n && q in f(k)
  {
    if q in f(n - 1) {
      k := n - 1;
    } else {
      k := ConcatFrom(f, n - 1, q);
    }
  }

  /** Lists without duplicates, no two of which share an element,
      concatenate to a list without duplicates. */
  lemma {:induction false} ConcatDistinct<T>(f: nat -> seq<T>, n: nat)
    requires forall k: nat :: k < n ==> NoDuplicates(f(k))
    requires forall j: nat, k: nat, q :: j < k < n && q in f(j) ==> q !in f(k)
    ensures NoDuplicates(Concat(f, n))
  {
    if n > 0 {
      ConcatDistinct(f, n - 1);
      var before, last := Concat(f, n - 1), f(n - 1);
      forall q | q in before
        ensures q !in last
      {
        var j := ConcatFrom(f, n - 1, q);
      }
      NoDuplicatesConcat(before, last);
    }
  }

  /** How many elements of s satisfy p. */
  function CountWhere<T>(s: seq<T>, p: T -> bool): (r: nat)
    ensures r <= |s|
  {
    if |s| == 0 then 0 else CountWhere(s[..|s| - 1], p) + (if p(s[|s| - 1]) then 1 else 0)
  }

  /** The positions of s whose element satisfies p. */
  function PositionsWhere<T>(s: seq<T>, p: T -> bool): set<int>
  {
    set i | 0 <= i < |s| && p(s[i])
  }

  /** Counting the elements that satisfy p counts their positions. */
  lemma {:induction false} CountWhereIsPositions<T>(s: seq<T>, p: T -> bool)
    ensures CountWhere(s, p) == |PositionsWhere(s, p)|
  {
    var n := |s|;
    if n > 0 {
      var init := s[..n - 1];
      CountWhereIsPositions(init, p);
      var added: set<int> := if p(s[n - 1]) then {n - 1} else {};
      forall i
        ensures i in PositionsWhere(s, p) <==> i in PositionsWhere(init, p) + added
      {
        if 0 <= i < n - 1 {
          assert init[i] == s[i];
        }
      }
      assert PositionsWhere(s, p) == PositionsWhere(init, p) + added;
      assert n - 1 !in PositionsWhere(init, p);
    }
  }

  /** The set of the elements of a list. */
  function Elements<T>(s: seq<T>): set<T>
  {
    set x | x in s
  }

  /** A list without duplicates has as many elements as its set. */
  lemma {:induction false} DistinctCard<T>(s: seq<T>)
    requires NoDuplicates(s)
    ensures |Elements(s)| == |s|
  {
    if |s| > 0 {
      var init := s[..|s| - 1];
      DistinctCard(init);
      assert Elements(s) == Elements(init) + {s[|s| - 1]};
      assert s[|s| - 1] !in init;
    }
  }

  // ---------------------------------------------------------------------
  // rearrangements
  // ---------------------------------------------------------------------

  /** `swap` on a vector or slice. */
  function Swap<T>(s: seq<T>, i: nat, j: nat): (r: seq<T>)
    requires i < |s| && j < |s|
    ensures |r| == |s| && r[i] == s[j] && r[j] == s[i]
    ensures forall m :: 0 <= m < |s| && m != i && m != j ==> r[m] == s[m]
  {
    s[i := s[j]][j := s[i]]
  }

  /** How many times x occurs in s. */
  ghost function Count<T>(s: seq<T>, x: T): nat
  {
    if |s| == 0 then 0 else Count(s[..|s| - 1], x) + (if s[|s| - 1] == x then 1 else 0)
  }

  lemma {:induction false} CountIsMultiplicity<T>(s: seq<T>, x: T)
    ensures Count(s, x) == multiset(s)[x]
    decreases |s|
  {
    if |s| > 0 {
      CountIsMultiplicity(s[..|s| - 1], x);
      assert s == s[..|s| - 1] + [s[|s| - 1]];
    }
  }

  /** Counting in two lists one after the other. */
  lemma {:induction false} CountConcat<T>(a: seq<T>, b: seq<T>, x: T)
    ensures Count(a + b, x) == Count(a, x) + Count(b, x)
    decreases |b|
  {
    if |b| == 0 {
      assert a + b == a;
    } else {
      var b' := b[..|b| - 1];
      CountConcat(a, b', x);
      assert (a + b)[..|a + b| - 1] == a + b';
      assert (a + b)[|a + b| - 1] == b[|b| - 1];
    }
  }

  /** An element occurs exactly when its count is positive. */
  lemma {:induction false} CountIn<T>(s: seq<T>, x: T)
    ensures x in s <==> Count(s, x) > 0
    decreases |s|
  {
    if |s| > 0 {
      CountIn(s[..|s| - 1], x);
      assert s == s[..|s| - 1] + [s[|s| - 1]];
    }
  }

  /** a is a rearrangement of b. */
  ghost predicate Permutation<T(!new)>(a: seq<T>, b: seq<T>)
  {
    forall x :: Count(a, x) == Count(b, x)
  }

  lemma PermutationTrans<T(!new)>(a: seq<T>, b: seq<T>, c: seq<T>)
    requires Permutation(a, b) && Permutation(b, c)
    ensures Permutation(a, c)
  {
  }

  lemma PermutationMultiset<T(!new)>(a: seq<T>, b: seq<T>)
    requires Permutation(a, b)
    ensures multiset(a) == multiset(b)
  {
    forall x ensures multiset(a)[x] == multiset(b)[x] {
      CountIsMultiplicity(a, x);
      CountIsMultiplicity(b, x);
    }
  }

  lemma SwapPermutes<T(!new)>(s: seq<T>, i: nat, j: nat)
    requires i < |s| && j < |s|
    ensures Permutation(Swap(s, i, j), s)
  {
    var r := Swap(s, i, j);
    assert multiset(r) == multiset(s);
    forall x ensures Count(r, x) == Count(s, x) {
      CountIsMultiplicity(r, x);
      CountIsMultiplicity(s, x);
    }
  }
}
