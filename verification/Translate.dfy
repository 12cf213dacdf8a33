/** `tr`: set expansion and character mapping. */
module Translate {
  import opened Base

  predicate Scalar(code: int) {
    0 <= code < 0xD800 || 0xE000 <= code < 0x11_0000
  }

  /** The characters with codes `lo..=hi`, in order, without the codes that are no character. */
  function Range(lo: int, hi: int): seq<char>
    decreases hi - lo + 1
  {
    if lo > hi then []
    else (if Scalar(lo) then [lo as char] else []) + Range(lo + 1, hi)
  }

  predicate StartsRange(s: string) {
    |s| >= 3 && s[1] == '-' && s[0] <= s[2]
  }

  /** `expand_set`: `a-z` becomes its characters, everything else stands for itself. */
  function Expand(s: string): seq<char> {
    if s == "" then []
    else if StartsRange(s) then Range(s[0] as int, s[2] as int) + Expand(s[3..])
    else [s[0]] + Expand(s[1..])
  }

  lemma ExpandFrom(s: string, i: nat)
    requires i < |s|
    ensures Expand(s[i..]) ==
            if i + 2 < |s| && s[i + 1] == '-' && s[i] <= s[i + 2] then
              Range(s[i] as int, s[i + 2] as int) + Expand(s[i + 3..])
            else [s[i]] + Expand(s[i + 1..])
  {
    assert s[i..][1..] == s[i + 1..];
    if StartsRange(s[i..]) {
      assert s[i..][3..] == s[i + 3..];
    }
  }

  lemma Regroup(a: seq<char>, b: seq<char>, c: seq<char>)
    ensures (a + b) + c == a + (b + c)
  {
  }

  method ExpandSet(s: string) returns (out: seq<char>)
    ensures out == Expand(s)
  {
    out := [];
    var i := 0;
    assert s[0..] == s;
    while i < |s|
      invariant 0 <= i <= |s|
      invariant out + Expand(s[i..]) == Expand(s)
    {
      if i + 2 < |s| && s[i + 1] == '-' && s[i] <= s[i + 2] {
        ExpandFrom(s, i);
        var run := ExpandRun(s[i] as int, s[i + 2] as int);
        Regroup(out, run, Expand(s[i + 3..]));
        out := out + run;
        i := i + 3;
      } else {
        ExpandFrom(s, i);
        Regroup(out, [s[i]], Expand(s[i + 1..]));
        out := out + [s[i]];
        i := i + 1;
      }
    }
  }

  /** The loop over the codes of one range. */
  method ExpandRun(lo: int, hi: int) returns (run: seq<char>)
    requires lo <= hi
    ensures run == Range(lo, hi)
  {
    run := [];
    var cp := lo;
    while cp <= hi
      invariant lo <= cp <= hi + 1
      invariant run + Range(cp, hi) == Range(lo, hi)
    {
      if Scalar(cp) {
        run := run + [cp as char];
      }
      cp := cp + 1;
    }
  }

  /** The replacement table: pairs inserted in order, so a later one wins; a missing partner
      leaves the character alone. */
  function Table(from: seq<char>, to: seq<char>): map<char, char>
    decreases |from|
  {
    if from == [] then map[]
    else
      var last := |from| - 1;
      Table(from[..last], to)[from[last] := if last < |to| then to[last] else from[last]]
  }

  function MapChar(table: map<char, char>, c: char): char {
    if c in table then table[c] else c
  }

  function MapAll(table: map<char, char>, s: string): string {
    seq(|s|, i requires 0 <= i < |s| => MapChar(table, s[i]))
  }

  /** `tr FROM TO`, on sets already expanded. */
  function Tr(from: seq<char>, to: seq<char>, s: string): string {
    MapAll(Table(from, to), s)
  }

  predicate NoRepeats(s: seq<char>) {
    forall i, j | 0 <= i < j < |s| :: s[i] != s[j]
  }

  /** Without repeats the table is the position-wise pairing. */
  lemma {:induction false} TableAt(from: seq<char>, to: seq<char>)
    requires NoRepeats(from)
    ensures forall c :: c in Table(from, to) <==> c in from
    ensures forall i | 0 <= i < |from| ::
              Table(from, to)[from[i]] == if i < |to| then to[i] else from[i]
    decreases |from|
  {
    if from != [] {
      var init := from[..|from| - 1];
      TableAt(init, to);
      assert from == init + [from[|from| - 1]];
    }
  }

  lemma TrAt(from: seq<char>, to: seq<char>, i: nat)
    requires NoRepeats(from) && |from| == |to| && i < |from|
    ensures MapChar(Table(from, to), from[i]) == to[i]
  {
    TableAt(from, to);
  }

  lemma TrElsewhere(from: seq<char>, to: seq<char>, c: char)
    requires NoRepeats(from) && c !in from
    ensures MapChar(Table(from, to), c) == c
  {
    TableAt(from, to);
  }

  ghost predicate Undone(a: seq<char>, b: seq<char>) {
    forall s :: Tr(b, a, Tr(a, b, s)) == s
  }

  ghost predicate SameElements(a: seq<char>, b: seq<char>) {
    forall c :: c in a <==> c in b
  }

  lemma RearrangementUndone(a: seq<char>, b: seq<char>, c: char)
    requires NoRepeats(a) && NoRepeats(b) && |a| == |b| && SameElements(a, b)
    ensures MapChar(Table(b, a), MapChar(Table(a, b), c)) == c
  {
    if c in a {
      var i :| 0 <= i < |a| && a[i] == c;
      TrAt(a, b, i);
      TrAt(b, a, i);
    } else {
      TrElsewhere(a, b, c);
      TrElsewhere(b, a, c);
    }
  }

  lemma SingleChar(from: seq<char>, to: seq<char>, c: char)
    ensures Tr(from, to, [c]) == [MapChar(Table(from, to), c)]
  {
  }

  lemma UndoneIsInjective(a: seq<char>, b: seq<char>, c: char, d: char)
    requires Undone(a, b) && MapChar(Table(a, b), c) == MapChar(Table(a, b), d)
    ensures c == d
  {
    SingleChar(a, b, c);
    SingleChar(a, b, d);
    assert Tr(b, a, Tr(a, b, [c])) == [c];
    assert Tr(b, a, Tr(a, b, [d])) == [d];
  }

  lemma {:induction false} DistinctCount(s: seq<char>)
    requires NoRepeats(s)
    ensures |set c | c in s| == |s|
    decreases |s|
  {
    if s != [] {
      var init := s[..|s| - 1];
      DistinctCount(init);
      assert s == init + [s[|s| - 1]];
      assert (set c | c in s) == (set c | c in init) + {s[|s| - 1]};
    } else {
      assert (set c | c in s) == {};
    }
  }

  lemma SubsetOfSameCount(small: set<char>, large: set<char>)
    requires small <= large && |small| == |large|
    ensures small == large
  {
    assert |large - small| == |large| - |small|;
  }

  lemma SubsetIsSame(a: seq<char>, b: seq<char>)
    requires NoRepeats(a) && NoRepeats(b) && |a| == |b|
    requires forall i | 0 <= i < |b| :: b[i] in a
    ensures SameElements(a, b)
  {
    var inA, inB := set c | c in a, set c | c in b;
    DistinctCount(a);
    DistinctCount(b);
    SubsetOfSameCount(inB, inA);
    forall c
      ensures c in a <==> c in b
    {
      assert c in a <==> c in inA;
      assert c in b <==> c in inB;
    }
  }

  /** For sets of equal length, the first without repeats: `tr B A` undoes `tr A B` on every
      string exactly when B is a rearrangement of A. */
  lemma TrInverse(a: seq<char>, b: seq<char>)
    requires NoRepeats(a) && |a| == |b|
    ensures Undone(a, b) <==> NoRepeats(b) && SameElements(a, b)
  {
    if NoRepeats(b) && SameElements(a, b) {
      forall s
        ensures Tr(b, a, Tr(a, b, s)) == s
      {
        forall i | 0 <= i < |s|
          ensures Tr(b, a, Tr(a, b, s))[i] == s[i]
        {
          RearrangementUndone(a, b, s[i]);
        }
      }
    }
    if Undone(a, b) {
      UndoneIsRearrangement(a, b);
    }
  }

  lemma UndoneIsRearrangement(a: seq<char>, b: seq<char>)
    requires NoRepeats(a) && |a| == |b| && Undone(a, b)
    ensures NoRepeats(b) && SameElements(a, b)
  {
    forall i, j | 0 <= i < j < |b|
      ensures b[i] != b[j]
    {
      TrAt(a, b, i);
      TrAt(a, b, j);
      if b[i] == b[j] {
        UndoneIsInjective(a, b, a[i], a[j]);
      }
    }
    forall i | 0 <= i < |b|
      ensures b[i] in a
    {
      TrAt(a, b, i);
      if b[i] !in a {
        TrElsewhere(a, b, b[i]);
        UndoneIsInjective(a, b, a[i], b[i]);
      }
    }
    SubsetIsSame(a, b);
  }

  // Ranges, and ROT13

  /** A range of characters below the surrogates is the run of their codes. */
  lemma {:induction false} RangeAt(lo: int, hi: int)
    requires 0 <= lo <= hi + 1 <= 0xD800
    ensures |Range(lo, hi)| == hi - lo + 1
    ensures forall i | 0 <= i < |Range(lo, hi)| :: Range(lo, hi)[i] as int == lo + i
    decreases hi - lo + 1
  {
    if lo <= hi {
      RangeAt(lo + 1, hi);
    }
  }

  function Letters(): seq<char> { Expand("A-Za-z") }

  function Rotated(): seq<char> { Expand("N-ZA-Mn-za-m") }

  /** The alphabet position, upper case then lower case, that ROT13 sends position `i` to. */
  function RotateIndex(i: nat): nat
    requires i < 52
  {
    if i < 26 then (i + 13) % 26 else 26 + (i - 13) % 26
  }

  lemma LettersAt()
    ensures |Letters()| == 52
    ensures forall i | 0 <= i < 52 ::
              Letters()[i] as int == if i < 26 then 'A' as int + i else 'a' as int + (i - 26)
  {
    assert "A-Za-z" == ['A', '-', 'Z'] + "a-z";
    assert "a-z" == ['a', '-', 'z'] + "";
    RangeAt('A' as int, 'Z' as int);
    RangeAt('a' as int, 'z' as int);
    assert Letters() == Range('A' as int, 'Z' as int) + Range('a' as int, 'z' as int);
  }

  lemma FourPiecesAt(a: seq<char>, b: seq<char>, c: seq<char>, d: seq<char>, i: nat)
    requires |a| == |b| == |c| == |d| == 13 && i < 52
    ensures (a + (b + (c + d)))[i]
         == if i < 13 then a[i] else if i < 26 then b[i - 13] else if i < 39 then c[i - 26] else d[i - 39]
  {
  }

  lemma RotatedPieces()
    ensures Rotated() == Range('N' as int, 'Z' as int) + (Range('A' as int, 'M' as int)
                         + (Range('n' as int, 'z' as int) + Range('a' as int, 'm' as int)))
  {
    assert "N-ZA-Mn-za-m" == ['N', '-', 'Z'] + "A-Mn-za-m";
    assert "A-Mn-za-m" == ['A', '-', 'M'] + "n-za-m";
    assert "n-za-m" == ['n', '-', 'z'] + "a-m";
    assert "a-m" == ['a', '-', 'm'] + "";
    assert Range('a' as int, 'm' as int) + Expand("") == Range('a' as int, 'm' as int);
  }

  lemma RotatedAt()
    ensures |Letters()| == 52 && |Rotated()| == 52
    ensures forall i | 0 <= i < 52 :: Rotated()[i] == Letters()[RotateIndex(i)]
  {
    hide Range, Expand, Letters, Rotated;
    LettersAt();
    RotatedPieces();
    var r1, r2 := Range('N' as int, 'Z' as int), Range('A' as int, 'M' as int);
    var r3, r4 := Range('n' as int, 'z' as int), Range('a' as int, 'm' as int);
    RangeAt('N' as int, 'Z' as int);
    RangeAt('A' as int, 'M' as int);
    RangeAt('n' as int, 'z' as int);
    RangeAt('a' as int, 'm' as int);
    forall i | 0 <= i < 52
      ensures Rotated()[i] == Letters()[RotateIndex(i)]
    {
      FourPiecesAt(r1, r2, r3, r4, i);
      assert Rotated()[i] as int == Letters()[RotateIndex(i)] as int;
    }
  }

  lemma SwappedPair(a: seq<char>, b: seq<char>, i: nat, j: nat)
    requires NoRepeats(a) && |a| == |b| && i < |a| && j < |a|
    requires b[i] == a[j] && b[j] == a[i]
    ensures MapChar(Table(a, b), MapChar(Table(a, b), a[i])) == a[i]
  {
    TrAt(a, b, i);
    TrAt(a, b, j);
  }

  lemma LettersDistinct()
    ensures NoRepeats(Letters())
  {
    LettersAt();
  }

  lemma RotateTwice(a: seq<char>, b: seq<char>, c: char)
    requires NoRepeats(a) && |a| == |b| == 52
    requires forall i | 0 <= i < 52 :: b[i] == a[RotateIndex(i)]
    ensures MapChar(Table(a, b), MapChar(Table(a, b), c)) == c
  {
    hide Table, MapChar;
    if c in a {
      var i :| 0 <= i < 52 && a[i] == c;
      assert RotateIndex(RotateIndex(i)) == i;
      SwappedPair(a, b, i, RotateIndex(i));
    } else {
      TrElsewhere(a, b, c);
    }
  }

  /** ROT13 as `tr` runs it is its own inverse, on every string. */
  lemma Rot13Involution(s: string)
    ensures Tr(Letters(), Rotated(), Tr(Letters(), Rotated(), s)) == s
  {
    LettersDistinct();
    RotatedAt();
    forall i | 0 <= i < |s|
      ensures Tr(Letters(), Rotated(), Tr(Letters(), Rotated(), s))[i] == s[i]
    {
      RotateTwice(Letters(), Rotated(), s[i]);
    }
  }

  // What sets and mappings mean

  lemma {:induction false} RangeMembers(lo: int, hi: int, c: char)
    requires 0 <= lo <= hi + 1 <= 0x11_0000
    ensures c in Range(lo, hi) <==> lo <= c as int <= hi
    decreases hi - lo + 1
  {
    if lo <= hi {
      RangeMembers(lo + 1, hi, c);
      assert c as int == lo ==> Scalar(lo) && c == lo as char;
    }
  }

  lemma {:induction false} RangeRises(lo: int, hi: int)
    requires 0 <= lo <= hi + 1 <= 0x11_0000
    ensures forall i, j | 0 <= i < j < |Range(lo, hi)| :: Range(lo, hi)[i] < Range(lo, hi)[j]
    decreases hi - lo + 1
  {
    if lo <= hi {
      RangeRises(lo + 1, hi);
      var rest := Range(lo + 1, hi);
      forall j | 0 <= j < |rest|
        ensures rest[j] as int > lo
      {
        RangeMembers(lo + 1, hi, rest[j]);
      }
    }
  }

  /** The characters a range is written for. */
  function CharRange(lo: char, hi: char): seq<char> {
    Range(lo as int, hi as int)
  }

  /** A range holds exactly the characters between its ends, once each and in order. */
  lemma RangeExact(lo: char, hi: char)
    requires lo <= hi
    ensures forall c :: c in CharRange(lo, hi) <==> lo <= c <= hi
    ensures forall i, j | 0 <= i < j < |CharRange(lo, hi)| :: CharRange(lo, hi)[i] < CharRange(lo, hi)[j]
  {
    RangeRises(lo as int, hi as int);
    forall c
      ensures c in CharRange(lo, hi) <==> lo <= c <= hi
    {
      RangeMembers(lo as int, hi as int, c);
    }
  }

  /** What a set is written with. */
  datatype SetItem = Run(lo: char, hi: char) | One(c: char)

  function SetText(items: seq<SetItem>): string {
    if items == [] then ""
    else (match items[0] case Run(lo, hi) => [lo, '-', hi] case One(c) => [c]) + SetText(items[1..])
  }

  /** A range needs its ends in order, and nothing else that could be one stands for itself. */
  predicate SetFits(items: seq<SetItem>) {
    items == []
    || (var next := SetText(items[1..]);
        && SetFits(items[1..])
        && match items[0]
           case Run(lo, hi) => lo <= hi
           case One(c) => !(|next| >= 2 && next[0] == '-' && c <= next[1]))
  }

  function SetMeaning(items: seq<SetItem>): seq<char> {
    if items == [] then []
    else
      (match items[0] case Run(lo, hi) => CharRange(lo, hi) case One(c) => [c]) + SetMeaning(items[1..])
  }

  lemma {:induction false} ExpandIsMeaning(items: seq<SetItem>)
    requires SetFits(items)
    ensures Expand(SetText(items)) == SetMeaning(items)
  {
    if items != [] {
      ExpandIsMeaning(items[1..]);
      var s, next := SetText(items), SetText(items[1..]);
      match items[0]
      case Run(lo, hi) =>
        assert s[3..] == next;
      case One(c) =>
        assert s[1..] == next;
    }
  }

  /** Every set is written that way. */
  lemma {:induction false} SetItems(s: string) returns (items: seq<SetItem>)
    ensures SetFits(items) && SetText(items) == s
  {
    if s == "" {
      items := [];
    } else if StartsRange(s) {
      var rest := SetItems(s[3..]);
      items := [Run(s[0], s[2])] + rest;
    } else {
      var rest := SetItems(s[1..]);
      items := [One(s[0])] + rest;
    }
  }

  /** Mapping keeps the length; a character of the first set becomes the one at its last position
      there, if the second set reaches so far, and any other stays. */
  lemma TrExact(from: seq<char>, to: seq<char>, s: string, k: nat, i: nat)
    requires k < |s|
    ensures |Tr(from, to, s)| == |s|
    ensures s[k] !in from ==> Tr(from, to, s)[k] == s[k]
    ensures i < |from| && from[i] == s[k] && s[k] !in from[i + 1..] ==>
              Tr(from, to, s)[k] == if i < |to| then to[i] else s[k]
  {
    TableMembers(from, to, s[k]);
    if i < |from| && from[i] == s[k] && s[k] !in from[i + 1..] {
      LastPairWins(from, to, i);
    }
  }

  lemma {:induction false} TableMembers(from: seq<char>, to: seq<char>, c: char)
    ensures c in Table(from, to) <==> c in from
    decreases |from|
  {
    if from != [] {
      var init := from[..|from| - 1];
      TableMembers(init, to, c);
      assert from == init + [from[|from| - 1]];
    }
  }

  lemma {:induction false} LastPairWins(from: seq<char>, to: seq<char>, i: nat)
    requires i < |from| && from[i] !in from[i + 1..]
    ensures from[i] in Table(from, to) && Table(from, to)[from[i]] == if i < |to| then to[i] else from[i]
    decreases |from|
  {
    var last := |from| - 1;
    if i < last {
      assert from[i + 1..][last - i - 1] == from[last];
      var init := from[..last];
      assert from[i + 1..] == init[i + 1..] + [from[last]];
      LastPairWins(init, to, i);
    }
  }
}
