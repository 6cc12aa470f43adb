/** Day 9: a disk map of digits alternates file lengths and free-space
    lengths. It is decoded into one slot per block, holding the file id or
    nothing; whole files are then moved into free runs further left, and a
    checksum of the result is taken. */
module Day9 {
  import opened Text

  /** The slots of the disk: `Some(id)` for a block of file id, `None` for
      a free block. */
  type Entries = seq<Option<nat>>

  // ---------------------------------------------------------------------
  // decoding the disk map
  // ---------------------------------------------------------------------

  /** The first n characters of the disk map are digits. */
  predicate DigitsUpTo(line: string, n: nat)
  {
    n <= |line| && forall t :: 0 <= t < n ==> IsDigit(line[t])
  }

  /** n copies of x. */
  function Repeat<T>(x: T, n: nat): (r: seq<T>)
    ensures |r| == n && forall p :: 0 <= p < n ==> r[p] == x
  {
    if n == 0 then [] else Repeat(x, n - 1) + [x]
  }

  /** What decoding has built: the slots and the two size maps. */
  datatype Layout = Layout(entries: Entries, groupSizes: map<nat, nat>, spaceSizes: map<nat, nat>)

  /** The first block that digit t describes: the digits before it added
      up. */
  function Start(line: string, t: nat): nat
    requires DigitsUpTo(line, t)
  {
    if t == 0 then 0 else Start(line, t - 1) + DigitValue(line[t - 1])
  }

  /** What each slot of digit t holds: file t / 2 at an even place,
      nothing at an odd one. */
  function BlockOf(t: nat): Option<nat>
  {
    if t % 2 == 0 then Some(t / 2) else None
  }

  /** The slots `read_file_system` has pushed after the first n digits:
      digit t pushes that many slots holding BlockOf(t). */
  function EntriesUpTo(line: string, n: nat): Entries
    requires DigitsUpTo(line, n)
  {
    if n == 0 then [] else EntriesUpTo(line, n - 1) + Repeat(BlockOf(n - 1), DigitValue(line[n - 1]))
  }

  /** The file sizes recorded after the first n digits: a digit at an even
      place t, under the id t / 2 of its file. */
  function GroupsUpTo(line: string, n: nat): map<nat, nat>
    requires DigitsUpTo(line, n)
  {
    if n == 0 then map[]
    else if (n - 1) % 2 == 0 then GroupsUpTo(line, n - 1)[(n - 1) / 2 := DigitValue(line[n - 1])]
    else GroupsUpTo(line, n - 1)
  }

  /** The free-run sizes recorded after the first n digits: a digit at an
      odd place, under the index of the first slot of its run (the number
      of slots pushed before it). */
  function SpacesUpTo(line: string, n: nat): map<nat, nat>
    requires DigitsUpTo(line, n)
  {
    if n == 0 then map[]
    else if (n - 1) % 2 == 1 then SpacesUpTo(line, n - 1)[|EntriesUpTo(line, n - 1)| := DigitValue(line[n - 1])]
    else SpacesUpTo(line, n - 1)
  }

  /** `read_file_system`: None where a character is not a digit (the
      `unwrap` of `to_digit` panics). */
  function Decode(line: string): Option<Layout>
  {
    if DigitsUpTo(line, |line|)
    then Some(Layout(EntriesUpTo(line, |line|), GroupsUpTo(line, |line|), SpacesUpTo(line, |line|)))
    else None
  }

  /** Each digit's blocks start where the previous digit's end. */
  lemma {:induction false} StartMonotone(line: string, t: nat, u: nat)
    requires t <= u && DigitsUpTo(line, u)
    ensures Start(line, t) <= Start(line, u)
    ensures t < u ==> Start(line, t) + DigitValue(line[t]) <= Start(line, u)
    decreases u
  {
    if t < u {
      StartMonotone(line, t, u - 1);
    }
  }

  /** Decoding the first n digits gives as many slots as they add up to. */
  lemma {:induction false} DecodeLength(line: string, n: nat)
    requires DigitsUpTo(line, n)
    ensures |EntriesUpTo(line, n)| == Start(line, n)
    decreases n
  {
    if n > 0 {
      DecodeLength(line, n - 1);
    }
  }

  /** The blocks of digit t, from Start(t) on, hold file t / 2 when t is
      even and are free when t is odd. */
  lemma {:induction false} DecodeEntryAt(line: string, n: nat, t: nat, r: nat)
    requires DigitsUpTo(line, n) && t < n && r < DigitValue(line[t])
    ensures Start(line, t) + r < |EntriesUpTo(line, n)|
    ensures EntriesUpTo(line, n)[Start(line, t) + r] == if t % 2 == 0 then Some(t / 2) else None
    decreases n
  {
    DecodeLength(line, n - 1);
    var before := EntriesUpTo(line, n - 1);
    var x := BlockOf(n - 1);
    assert EntriesUpTo(line, n) == before + Repeat(x, DigitValue(line[n - 1]));
    if t < n - 1 {
      DecodeEntryAt(line, n - 1, t, r);
    }
  }

  /** File t / 2, for an even place t, has the size digit t gives. */
  lemma {:induction false} DecodeGroupAt(line: string, n: nat, t: nat)
    requires DigitsUpTo(line, n) && t < n && t % 2 == 0
    ensures t / 2 in GroupsUpTo(line, n) && GroupsUpTo(line, n)[t / 2] == DigitValue(line[t])
    decreases n
  {
    if t < n - 1 {
      DecodeGroupAt(line, n - 1, t);
    }
  }

  /** Every recorded file comes from an even place among the first n. */
  lemma {:induction false} DecodeGroupKey(line: string, n: nat, k: nat)
    requires DigitsUpTo(line, n) && k in GroupsUpTo(line, n)
    ensures 2 * k < n
    decreases n
  {
    if k != (n - 1) / 2 || (n - 1) % 2 != 0 {
      DecodeGroupKey(line, n - 1, k);
    }
  }

  /** Every free run, an empty one too, is recorded under the index of its
      first slot, and a non-empty one with its length. */
  lemma {:induction false} DecodeSpaceAt(line: string, n: nat, t: nat)
    requires DigitsUpTo(line, n) && t < n && t % 2 == 1
    ensures Start(line, t) in SpacesUpTo(line, n)
    ensures DigitValue(line[t]) > 0 ==> SpacesUpTo(line, n)[Start(line, t)] == DigitValue(line[t])
    decreases n
  {
    DecodeLength(line, n - 1);
    if t < n - 1 {
      DecodeSpaceAt(line, n - 1, t);
      StartMonotone(line, t, n - 1);
    }
  }

  /** Every recorded run starts where the blocks of an odd place do. */
  lemma {:induction false} DecodeSpaceKey(line: string, n: nat, key: nat) returns (t: nat)
    requires DigitsUpTo(line, n) && key in SpacesUpTo(line, n)
    ensures t < n && t % 2 == 1 && Start(line, t) == key
    decreases n
  {
    DecodeLength(line, n - 1);
    if (n - 1) % 2 == 1 && key == Start(line, n - 1) {
      t := n - 1;
    } else {
      t := DecodeSpaceKey(line, n - 1, key);
    }
  }

  // ---------------------------------------------------------------------
  // the file sizes agree with the slots
  // ---------------------------------------------------------------------

  /** Every file in the slots has a recorded size (what `fragment`
      unwraps). */
  ghost predicate FilesKnown(entries: Entries, groupSizes: map<nat, nat>)
  {
    forall k :: Some(k) in entries ==> k in groupSizes
  }

  /** Every recorded size is the number of slots of that file. */
  ghost predicate SizesMatch(entries: Entries, groupSizes: map<nat, nat>)
  {
    forall k :: k in groupSizes ==> Count(entries, Some(k)) == groupSizes[k]
  }

  /** n copies of x count n times for x and never for anything else. */
  lemma {:induction false} RepeatCount<T>(x: T, n: nat, y: T)
    ensures Count(Repeat(x, n), y) == if x == y then n else 0
  {
    if n > 0 {
      RepeatCount(x, n - 1, y);
      assert Repeat(x, n)[..n - 1] == Repeat(x, n - 1);
    }
  }

  /** A file in the decoded slots comes from an even place and has a
      recorded size. */
  lemma {:induction false} DecodeFileKnown(line: string, n: nat, k: nat)
    requires DigitsUpTo(line, n) && Some(k) in EntriesUpTo(line, n)
    ensures 2 * k < n && k in GroupsUpTo(line, n)
    decreases n
  {
    var before := EntriesUpTo(line, n - 1);
    var x := BlockOf(n - 1);
    assert EntriesUpTo(line, n) == before + Repeat(x, DigitValue(line[n - 1]));
    if Some(k) in before {
      DecodeFileKnown(line, n - 1, k);
    }
  }

  /** The file of an even place has no slot before that place. */
  lemma {:induction false} DecodeFileNew(line: string, n: nat)
    requires DigitsUpTo(line, n) && n % 2 == 0
    ensures Count(EntriesUpTo(line, n), Some(n / 2)) == 0
  {
    CountIn(EntriesUpTo(line, n), Some(n / 2));
    if Some(n / 2) in EntriesUpTo(line, n) {
      DecodeFileKnown(line, n, n / 2);
    }
  }

  /** The recorded size of a decoded file is its number of slots. */
  lemma {:induction false} DecodeFileCount(line: string, n: nat, k: nat)
    requires DigitsUpTo(line, n) && k in GroupsUpTo(line, n)
    ensures Count(EntriesUpTo(line, n), Some(k)) == GroupsUpTo(line, n)[k]
    decreases n
  {
    var before := EntriesUpTo(line, n - 1);
    var d := DigitValue(line[n - 1]);
    var x := BlockOf(n - 1);
    var added := Repeat(x, d);
    assert EntriesUpTo(line, n) == before + added;
    CountConcat(before, added, Some(k));
    RepeatCount(x, d, Some(k));
    if (n - 1) % 2 == 0 && k == (n - 1) / 2 {
      assert GroupsUpTo(line, n)[k] == d;
      DecodeFileNew(line, n - 1);
    } else {
      assert GroupsUpTo(line, n)[k] == GroupsUpTo(line, n - 1)[k];
      DecodeFileCount(line, n - 1, k);
    }
  }

  /** A decoded disk map lists the size of every file it has, and each
      size is the number of slots of the file. */
  lemma DecodeSizes(line: string)
    requires Decode(line).Some?
    ensures FilesKnown(Decode(line).value.entries, Decode(line).value.groupSizes)
    ensures SizesMatch(Decode(line).value.entries, Decode(line).value.groupSizes)
  {
    forall k | Some(k) in Decode(line).value.entries
      ensures k in Decode(line).value.groupSizes
    {
      DecodeFileKnown(line, |line|, k);
    }
    forall k | k in Decode(line).value.groupSizes
      ensures Count(Decode(line).value.entries, Some(k)) == Decode(line).value.groupSizes[k]
    {
      DecodeFileCount(line, |line|, k);
    }
  }

  /** Moving slots around keeps both agreements. */
  lemma PermutedSizes(entries: Entries, entries': Entries, groupSizes: map<nat, nat>)
    requires Permutation(entries', entries)
    ensures FilesKnown(entries, groupSizes) ==> FilesKnown(entries', groupSizes)
    ensures SizesMatch(entries, groupSizes) ==> SizesMatch(entries', groupSizes)
  {
    forall k | Some(k) in entries'
      ensures Some(k) in entries
    {
      CountIn(entries', Some(k));
      CountIn(entries, Some(k));
    }
  }

  // ---------------------------------------------------------------------
  // the operations on the slots
  // ---------------------------------------------------------------------

  /** `swap_elements_at`: the swaps of a + k with b + k for k = 0, ...,
      n - 1, in that order. */
  function SwapRange(s: Entries, a: nat, b: nat, n: nat): (r: Entries)
    requires a + n <= |s| && b + n <= |s|
    ensures |r| == |s|
  {
    if n == 0 then s else Swap(SwapRange(s, a, b, n - 1), a + n - 1, b + n - 1)
  }

  /** The swaps only move slots. */
  lemma {:induction false} SwapRangePermutes(s: Entries, a: nat, b: nat, n: nat)
    requires a + n <= |s| && b + n <= |s|
    ensures Permutation(SwapRange(s, a, b, n), s)
  {
    if n == 0 {
      assert SwapRange(s, a, b, n) == s;
    } else {
      var t := SwapRange(s, a, b, n - 1);
      SwapRangePermutes(s, a, b, n - 1);
      SwapPermutes(t, a + n - 1, b + n - 1);
      PermutationTrans(Swap(t, a + n - 1, b + n - 1), t, s);
    }
  }

  /** On ranges that do not overlap, the swaps exchange the two ranges
      and leave every other slot as it was. */
  lemma {:induction false} SwapRangeAt(s: Entries, a: nat, b: nat, n: nat, p: nat)
    requires a + n <= |s| && b + n <= |s| && (a + n <= b || b + n <= a) && p < |s|
    ensures SwapRange(s, a, b, n)[p] == if a <= p < a + n then s[b + (p - a)]
                                        else if b <= p < b + n then s[a + (p - b)]
                                        else s[p]
  {
    if n > 0 {
      SwapRangeAt(s, a, b, n - 1, p);
      if p == a + n - 1 {
        SwapRangeAt(s, a, b, n - 1, b + n - 1);
      } else if p == b + n - 1 {
        SwapRangeAt(s, a, b, n - 1, a + n - 1);
      }
    }
  }

  /** `get_spaces_count_after_index`: the length of the run of free slots
      that starts at index; 0 when that slot holds a file or is past the
      end. */
  function SpacesAfter(s: Entries, index: nat): (c: nat)
    ensures c > 0 ==> index + c <= |s|
    ensures forall p :: index <= p < index + c ==> s[p].None?
    ensures index + c < |s| ==> s[index + c].Some?
    decreases |s| - index
  {
    if index >= |s| || s[index].Some? then 0 else 1 + SpacesAfter(s, index + 1)
  }

  /** A run of free slots that starts before a file slot ends before it,
      so a file of size g that fits in it has g <= i. */
  lemma {:induction false} RunFits(s: Entries, i: nat, j: nat, g: nat)
    requires j < i < |s| && (s[i].Some? || g <= i) && SpacesAfter(s, j) >= g
    ensures g <= i && j + g <= |s|
  {
  }

  /** One turn of the inner loop of `fragment` for the file slot i, of a
      file whose size is g, at j, with `next_j_index_to_test` at next: the
      new slots and the new value of next. A slot below next is skipped;
      otherwise next moves on by one, and a free slot whose run holds g
      slots gets the g slots ending at i, next moving on past them. Once
      the file has moved slot i is free, but g <= i still holds. */
  function InnerStep(s: Entries, i: nat, g: nat, j: nat, next: nat): (r: (Entries, nat))
    requires j < i < |s| && (s[i].Some? || g <= i)
    ensures |r.0| == |s| && (r.0[i].Some? || g <= i)
  {
    if j < next then (s, next)
    else if s[j].Some? then (s, next + 1)
    else if SpacesAfter(s, j) >= g then
      RunFits(s, i, j, g);
      (SwapRange(s, j, i - g + 1, g), next + 1 + g)
    else (s, next + 1)
  }

  /** The inner loop from j on. */
  function Inner(s: Entries, i: nat, g: nat, j: nat, next: nat): (r: Entries)
    requires i < |s| && (s[i].Some? || g <= i)
    ensures |r| == |s|
    decreases i - j
  {
    if j >= i then s
    else
      var r := InnerStep(s, i, g, j, next);
      Inner(r.0, i, g, j + 1, r.1)
  }

  /** A turn of the inner loop only moves slots. */
  lemma InnerStepPermutes(s: Entries, i: nat, g: nat, j: nat, next: nat)
    requires j < i < |s| && (s[i].Some? || g <= i)
    ensures Permutation(InnerStep(s, i, g, j, next).0, s)
  {
    if j >= next && s[j].None? && SpacesAfter(s, j) >= g {
      RunFits(s, i, j, g);
      SwapRangePermutes(s, j, i - g + 1, g);
    }
  }

  /** The inner loop only moves slots. */
  lemma {:induction false} InnerPermutes(s: Entries, i: nat, g: nat, j: nat, next: nat)
    requires i < |s| && (s[i].Some? || g <= i)
    ensures Permutation(Inner(s, i, g, j, next), s)
    decreases i - j
  {
    if j >= i {
      assert Inner(s, i, g, j, next) == s;
    } else {
      var r := InnerStep(s, i, g, j, next);
      assert Inner(s, i, g, j, next) == Inner(r.0, i, g, j + 1, r.1);
      InnerStepPermutes(s, i, g, j, next);
      InnerPermutes(r.0, i, g, j + 1, r.1);
      PermutationTrans(Inner(r.0, i, g, j + 1, r.1), r.0, s);
    }
  }

  /** The outer loop of `fragment`, over the slots i - 1 down to 0: a file
      slot starts the inner loop with the size of its file. */
  function Outer(s: Entries, groupSizes: map<nat, nat>, i: nat): (r: Entries)
    requires i <= |s| && FilesKnown(s, groupSizes)
    ensures |r| == |s|
    decreases i
  {
    if i == 0 then s
    else if s[i - 1].None? then Outer(s, groupSizes, i - 1)
    else
      var t := Inner(s, i - 1, groupSizes[s[i - 1].value], 0, 0);
      InnerPermutes(s, i - 1, groupSizes[s[i - 1].value], 0, 0);
      PermutedSizes(s, t, groupSizes);
      Outer(t, groupSizes, i - 1)
  }

  /** The outer loop only moves slots. */
  lemma {:induction false} OuterPermutes(s: Entries, groupSizes: map<nat, nat>, i: nat)
    requires i <= |s| && FilesKnown(s, groupSizes)
    ensures Permutation(Outer(s, groupSizes, i), s)
    decreases i
  {
    if i == 0 {
      assert Outer(s, groupSizes, i) == s;
    } else if s[i - 1].None? {
      assert Outer(s, groupSizes, i) == Outer(s, groupSizes, i - 1);
      OuterPermutes(s, groupSizes, i - 1);
    } else {
      var t := Inner(s, i - 1, groupSizes[s[i - 1].value], 0, 0);
      InnerPermutes(s, i - 1, groupSizes[s[i - 1].value], 0, 0);
      PermutedSizes(s, t, groupSizes);
      assert Outer(s, groupSizes, i) == Outer(t, groupSizes, i - 1);
      OuterPermutes(t, groupSizes, i - 1);
      PermutationTrans(Outer(t, groupSizes, i - 1), t, s);
    }
  }

  /** `fragment`: the outer loop over every slot. Compaction only moves
      slots: the slots after it are a permutation of those before, and every
      file in them still has a recorded size. */
  function Fragmented(s: Entries, groupSizes: map<nat, nat>): (r: Entries)
    requires FilesKnown(s, groupSizes)
    ensures |r| == |s| && multiset(r) == multiset(s)
    ensures FilesKnown(r, groupSizes)
  {
    OuterPermutes(s, groupSizes, |s|);
    PermutationMultiset(Outer(s, groupSizes, |s|), s);
    PermutedSizes(s, Outer(s, groupSizes, |s|), groupSizes);
    Outer(s, groupSizes, |s|)
  }

  /** The recorded sizes still count the slots of each file after
      compaction. */
  lemma FragmentedKeepsSizes(s: Entries, groupSizes: map<nat, nat>)
    requires FilesKnown(s, groupSizes)
    ensures SizesMatch(s, groupSizes) ==> SizesMatch(Fragmented(s, groupSizes), groupSizes)
  {
    OuterPermutes(s, groupSizes, |s|);
    PermutedSizes(s, Fragmented(s, groupSizes), groupSizes);
  }

  /** `calculate_checksum`: the sum of slot index times file id over the
      file slots; free slots add nothing, and every file slot's product
      counts in full. */
  function Checksum(s: Entries): (c: nat)
    ensures forall i :: 0 <= i < |s| && s[i].Some? ==> i * s[i].value <= c
  {
    if |s| == 0 then 0
    else Checksum(s[..|s| - 1]) + match s[|s| - 1] case None => 0 case Some(id) => id * (|s| - 1)
  }

  /** `print`: each free slot as ".", each file slot as its id in
      decimal. */
  function Render(s: Entries): string
  {
    if |s| == 0 then ""
    else Render(s[..|s| - 1]) + match s[|s| - 1] case None => "." case Some(id) => NatToString(id)
  }

  /** With ids below ten every slot is one character: "." for a free one,
      the id's digit for a file one. */
  lemma {:induction false} RenderSingleDigits(s: Entries)
    requires forall p :: 0 <= p < |s| && s[p].Some? ==> s[p].value < 10
    ensures |Render(s)| == |s|
    ensures forall p :: 0 <= p < |s| ==> Render(s)[p] == match s[p] case None => '.' case Some(id) => DigitChar(id)
  {
    if |s| > 0 {
      RenderSingleDigits(s[..|s| - 1]);
    }
  }

  // ---------------------------------------------------------------------
  // the file system
  // ---------------------------------------------------------------------

  /** `Filesystem`: the slots, the size of each file by id, and the size
      of each free run by the index of its first slot. */
  class Filesystem {
    var memoryEntries: Entries
    var groupSizes: map<nat, nat>
    var spaceSizes: map<nat, nat>

    /** An empty file system. */
    constructor ()
      ensures memoryEntries == [] && groupSizes == map[] && spaceSizes == map[]
    {
      memoryEntries := [];
      groupSizes := map[];
      spaceSizes := map[];
    }

    /** `print`. */
    method Print() returns (text: string)
      ensures text == Render(memoryEntries)
    {
      text := "";
      for i := 0 to |memoryEntries|
        invariant text == Render(memoryEntries[..i])
      {
        assert memoryEntries[..i + 1][..i] == memoryEntries[..i];
        match memoryEntries[i] {
          case None =>
            text := text + ".";
          case Some(index) =>
            text := text + NatToString(index);
        }
      }
      assert memoryEntries[..|memoryEntries|] == memoryEntries;
    }

    /** `swap_elements_at`; an index past the end panics in the source. */
    method SwapElementsAt(index1: nat, index2: nat, length: nat)
      requires index1 + length <= |memoryEntries| && index2 + length <= |memoryEntries|
      modifies this
      ensures memoryEntries == SwapRange(old(memoryEntries), index1, index2, length)
      ensures groupSizes == old(groupSizes) && spaceSizes == old(spaceSizes)
    {
      for i := 0 to length
        invariant memoryEntries == SwapRange(old(memoryEntries), index1, index2, i)
        invariant groupSizes == old(groupSizes) && spaceSizes == old(spaceSizes)
      {
        memoryEntries := Swap(memoryEntries, index1 + i, index2 + i);
      }
    }

    /** `get_spaces_count_after_index`. */
    method GetSpacesCountAfterIndex(index: nat) returns (count: nat)
      ensures count == SpacesAfter(memoryEntries, index)
    {
      count := 0;
      var i := index;
      while i < |memoryEntries|
        invariant i == index + count
        invariant SpacesAfter(memoryEntries, index) == count + SpacesAfter(memoryEntries, i)
        decreases |memoryEntries| - i
      {
        if memoryEntries[i].None? {
          count := count + 1;
        } else {
          break;
        }
        i := i + 1;
      }
    }

    /** The loops of `read_file_system` that push one entry count times. */
    method PushEntries(entry: Option<nat>, count: nat)
      modifies this
      ensures memoryEntries == old(memoryEntries) + Repeat(entry, count)
      ensures groupSizes == old(groupSizes) && spaceSizes == old(spaceSizes)
    {
      for i := 0 to count
        invariant memoryEntries == old(memoryEntries) + Repeat(entry, i)
        invariant groupSizes == old(groupSizes) && spaceSizes == old(spaceSizes)
      {
        memoryEntries := memoryEntries + [entry];
      }
    }

    /** One turn of the inner loop of `fragment`. */
    method MoveStep(i: nat, groupSizeOfIndex: nat, j: nat, nextJIndexToTest: nat) returns (next: nat)
      requires j < i < |memoryEntries| && (memoryEntries[i].Some? || groupSizeOfIndex <= i)
      modifies this
      ensures (memoryEntries, next) == InnerStep(old(memoryEntries), i, groupSizeOfIndex, j, nextJIndexToTest)
      ensures groupSizes == old(groupSizes) && spaceSizes == old(spaceSizes)
    {
      next := nextJIndexToTest;
      if j < next {
        return;
      }
      next := next + 1;
      if memoryEntries[j].Some? {
        return;
      }
      var currentSpaceIndex := j;
      var currentSpacesCount := GetSpacesCountAfterIndex(j);
      if currentSpacesCount >= groupSizeOfIndex {
        RunFits(memoryEntries, i, j, groupSizeOfIndex);
        SwapElementsAt(currentSpaceIndex, i - groupSizeOfIndex + 1, groupSizeOfIndex);
        next := next + groupSizeOfIndex;
      }
    }

    /** The inner loop of `fragment` for the file slot i. */
    method MoveFile(i: nat, groupSizeOfIndex: nat)
      requires i < |memoryEntries| && memoryEntries[i].Some?
      modifies this
      ensures memoryEntries == Inner(old(memoryEntries), i, groupSizeOfIndex, 0, 0)
      ensures groupSizes == old(groupSizes) && spaceSizes == old(spaceSizes)
    {
      var nextJIndexToTest: nat := 0;
      for j := 0 to i
        invariant |memoryEntries| == |old(memoryEntries)|
        invariant memoryEntries[i].Some? || groupSizeOfIndex <= i
        invariant Inner(memoryEntries, i, groupSizeOfIndex, j, nextJIndexToTest) == Inner(old(memoryEntries), i, groupSizeOfIndex, 0, 0)
        invariant groupSizes == old(groupSizes) && spaceSizes == old(spaceSizes)
      {
        nextJIndexToTest := MoveStep(i, groupSizeOfIndex, j, nextJIndexToTest);
      }
    }

    /** `fragment`: every slot from the last to the first; a file slot
      tries to move its file into the first free run that fits. */
    method Fragment()
      requires FilesKnown(memoryEntries, groupSizes)
      modifies this
      ensures groupSizes == old(groupSizes) && spaceSizes == old(spaceSizes)
      ensures memoryEntries == Fragmented(old(memoryEntries), groupSizes)
    {
      var i: nat := |memoryEntries|;
      while i > 0
        invariant groupSizes == old(groupSizes) && spaceSizes == old(spaceSizes)
        invariant i <= |memoryEntries| && FilesKnown(memoryEntries, groupSizes)
        invariant Outer(memoryEntries, groupSizes, i) == Fragmented(old(memoryEntries), groupSizes)
      {
        i := i - 1;
        if memoryEntries[i].None? {
          continue;
        }
        var currentIndex := memoryEntries[i].value;
        var groupSizeOfIndex := groupSizes[currentIndex];
        ghost var before := memoryEntries;
        MoveFile(i, groupSizeOfIndex);
        InnerPermutes(before, i, groupSizeOfIndex, 0, 0);
        PermutedSizes(before, memoryEntries, groupSizes);
      }
    }
  }

  /** `read_file_system`: None where a character is not a digit. */
  method ReadFileSystem(line: string) returns (r: Option<Filesystem>)
    ensures r.None? <==> Decode(line).None?
    ensures r.Some? ==> fresh(r.value)
    ensures r.Some? ==> (r.value.memoryEntries == Decode(line).value.entries
                         && r.value.groupSizes == Decode(line).value.groupSizes
                         && r.value.spaceSizes == Decode(line).value.spaceSizes)
  {
    var fileSystem := new Filesystem();
    var fileMode := true;
    var fileIndex := 0;
    for t := 0 to |line|
      invariant DigitsUpTo(line, t)
      invariant fileMode == (t % 2 == 0) && fileIndex == (t + 1) / 2
      invariant fileSystem.memoryEntries == EntriesUpTo(line, t)
      invariant fileSystem.groupSizes == GroupsUpTo(line, t)
      invariant fileSystem.spaceSizes == SpacesUpTo(line, t)
    {
      var ch := line[t];
      if !IsDigit(ch) {
        return None;
      }
      var currentDigit := DigitValue(ch);
      if fileMode {
        fileSystem.PushEntries(Some(fileIndex), currentDigit);
        fileSystem.groupSizes := fileSystem.groupSizes[fileIndex := currentDigit];
        fileIndex := fileIndex + 1;
      } else {
        fileSystem.PushEntries(None, currentDigit);
        fileSystem.spaceSizes := fileSystem.spaceSizes[|fileSystem.memoryEntries| - currentDigit := currentDigit];
      }
      fileMode := !fileMode;
    }
    return Some(fileSystem);
  }

  /** `calculate_checksum`. */
  method CalculateChecksum(fileSystem: Filesystem) returns (checksum: nat)
    ensures checksum == Checksum(fileSystem.memoryEntries)
  {
    checksum := 0;
    var entries := fileSystem.memoryEntries;
    for i := 0 to |entries|
      invariant checksum == Checksum(entries[..i])
    {
      assert entries[..i + 1][..i] == entries[..i];
      match entries[i] {
        case None =>
        case Some(index) =>
          checksum := checksum + index * i;
      }
    }
    assert entries[..|entries|] == entries;
  }

  // ---------------------------------------------------------------------
  // examples
  // ---------------------------------------------------------------------

  /** The slots of the disk map "12345". */
  const Small: Entries := [Some(0), None, None, Some(1), Some(1), Some(1), None, None, None, None, Some(2), Some(2), Some(2), Some(2), Some(2)]

  /** The slots read from "12345". */
  lemma SmallEntries()
    ensures DigitsUpTo("12345", 5) && EntriesUpTo("12345", 5) == Small
  {
    var line := "12345";
    assert Repeat(Some(0), 1) == [Some(0)];
    assert Repeat<Option<nat>>(None, 2) == [None, None];
    assert Repeat(Some(1), 3) == [Some(1), Some(1), Some(1)];
    assert Repeat<Option<nat>>(None, 4) == [None, None, None, None];
    assert Repeat(Some(2), 5) == [Some(2), Some(2), Some(2), Some(2), Some(2)];
    assert EntriesUpTo(line, 2) == [Some(0), None, None];
    assert EntriesUpTo(line, 4) == [Some(0), None, None, Some(1), Some(1), Some(1), None, None, None, None];
  }

  /** Reading "12345" gives its slots, the file sizes 1, 3 and 5 and the
      free runs of 2 at slot 1 and of 4 at slot 6. */
  lemma DecodeExample()
    ensures Decode("12345") == Some(Layout(Small, map[0 := 1, 1 := 3, 2 := 5], map[1 := 2, 6 := 4]))
  {
    var line := "12345";
    SmallEntries();
    assert GroupsUpTo(line, 5) == map[0 := 1, 1 := 3, 2 := 5];
    assert |EntriesUpTo(line, 1)| == 1 && |EntriesUpTo(line, 3)| == 6;
    assert SpacesUpTo(line, 5) == map[1 := 2, 6 := 4];
  }

  /** "12345" prints as "0..111....22222". */
  lemma PrintExample()
    ensures Render(Small) == "0..111....22222"
  {
    RenderSingleDigits(Small);
  }

  /** The slots of "12345" after swapping the 3 slots at 3 with the 3
      slots at 10. */
  const SmallSwapped: Entries := [Some(0), None, None, Some(2), Some(2), Some(2), None, None, None, None, Some(1), Some(1), Some(1), Some(2), Some(2)]

  /** The swap exchanges the two runs of three. */
  lemma SwapSmall()
    ensures SwapRange(Small, 3, 10, 3) == SmallSwapped
  {
    forall p | 0 <= p < 15
      ensures SwapRange(Small, 3, 10, 3)[p] == SmallSwapped[p]
    {
      SwapRangeAt(Small, 3, 10, 3, p);
    }
  }

  /** Swapping the 3 slots at 3 with the 3 slots at 10 in "12345" prints
      "0..222....11122". */
  lemma SwapExample()
    ensures Render(SwapRange(Small, 3, 10, 3)) == "0..222....11122"
  {
    SwapSmall();
    RenderSingleDigits(SmallSwapped);
  }

  /** In "12345" the free run at slot 6 has 4 slots. */
  lemma SpacesExample()
    ensures SpacesAfter(Small, 6) == 4
  {
    assert SpacesAfter(Small, 10) == 0;
    assert SpacesAfter(Small, 9) == 1;
    assert SpacesAfter(Small, 8) == 2;
    assert SpacesAfter(Small, 7) == 3;
  }
}
