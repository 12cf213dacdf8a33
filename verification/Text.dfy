/** Strings as the code uses them: splitting and joining at '/', prefix tests, the code-point order
    in which a sorted map or set of strings is walked, and the decimal numerals that integers are
    written as. */
module Text {

  /** `s.split('/')`: always at least one piece, none containing the separator. */
  function Split(s: string): (parts: seq<string>)
    ensures |parts| >= 1
    ensures forall p | p in parts :: '/' !in p
  {
    if s == "" then [""]
    else
      var rest := Split(s[1..]);
      if s[0] == '/' then [""] + rest
      else [[s[0]] + rest[0]] + rest[1..]
  }

  /** `parts.join("/")`. */
  function Join(parts: seq<string>): string {
    if parts == [] then ""
    else if |parts| == 1 then parts[0]
    else parts[0] + "/" + Join(parts[1..])
  }

  predicate StartsWith(s: string, prefix: string) {
    prefix <= s
  }

  lemma {:induction false} SplitUnbroken(s: string)
    requires '/' !in s
    ensures Split(s) == [s]
  {
    if s != "" {
      SplitUnbroken(s[1..]);
      assert [s[0]] + s[1..] == s;
    }
  }

  lemma PrependToFirst(c: char, front: seq<string>, back: seq<string>)
    requires front != []
    ensures [[c] + (front + back)[0]] + (front + back)[1..] == ([[c] + front[0]] + front[1..]) + back
    ensures [""] + (front + back) == ([""] + front) + back
  {
  }

  /** Splitting distributes over a separator. */
  lemma {:induction false} SplitAtSlash(a: string, b: string)
    ensures Split(a + "/" + b) == Split(a) + Split(b)
  {
    var whole := a + "/" + b;
    if a == "" {
      assert whole[1..] == b;
    } else {
      assert whole[0] == a[0];
      assert whole[1..] == a[1..] + "/" + b;
      SplitAtSlash(a[1..], b);
      PrependToFirst(a[0], Split(a[1..]), Split(b));
    }
  }

  lemma {:induction false} SplitJoin(parts: seq<string>)
    requires parts != []
    requires forall p | p in parts :: '/' !in p
    ensures Split(Join(parts)) == parts
  {
    SplitUnbroken(parts[0]);
    if |parts| > 1 {
      SplitJoin(parts[1..]);
      SplitAtSlash(parts[0], Join(parts[1..]));
    }
  }

  /** Joining two non-empty lists puts one separator between them. */
  lemma {:induction false} JoinConcat(a: seq<string>, b: seq<string>)
    requires a != [] && b != []
    ensures Join(a + b) == Join(a) + "/" + Join(b)
  {
    if |a| == 1 {
      assert (a + b)[1..] == b;
    } else {
      JoinConcat(a[1..], b);
      assert (a + b)[1..] == a[1..] + b;
      assert Join(a + b) == a[0] + "/" + (Join(a[1..]) + "/" + Join(b));
    }
  }

  /** Code-point order, the order of the keys of a sorted map. */
  predicate Leq(a: string, b: string) {
    a == "" || (b != "" && (a[0] < b[0] || (a[0] == b[0] && Leq(a[1..], b[1..]))))
  }

  predicate Less(a: string, b: string) {
    a != b && Leq(a, b)
  }

  lemma {:induction false} LeqTotal(a: string, b: string)
    ensures Leq(a, b) || Leq(b, a)
    ensures Leq(a, a)
    ensures Leq(a, b) && Leq(b, a) ==> a == b
  {
    if a != "" {
      LeqTotal(a[1..], if b == "" then "" else b[1..]);
      if b != "" && a[0] == b[0] && Leq(a, b) && Leq(b, a) {
        assert a == [a[0]] + a[1..];
        assert b == [b[0]] + b[1..];
      }
    }
  }

  lemma {:induction false} LeqTrans(a: string, b: string, c: string)
    requires Leq(a, b) && Leq(b, c)
    ensures Leq(a, c)
  {
    if a != "" && a[0] == b[0] == c[0] {
      LeqTrans(a[1..], b[1..], c[1..]);
    }
  }

  lemma {:induction false} LeqCommonPrefix(p: string, a: string, b: string)
    ensures Leq(p + a, p + b) == Leq(a, b)
  {
    if p == "" {
      assert p + a == a && p + b == b;
    } else {
      LeqCommonPrefix(p[1..], a, b);
      assert (p + a)[1..] == p[1..] + a;
      assert (p + b)[1..] == p[1..] + b;
    }
  }

  ghost predicate StrictlySorted(xs: seq<string>) {
    forall i, j | 0 <= i < j < |xs| :: Less(xs[i], xs[j])
  }

  lemma HeadIsLeast(xs: seq<string>, x: string)
    requires StrictlySorted(xs) && x in xs
    ensures Leq(xs[0], x)
  {
    var i :| 0 <= i < |xs| && xs[i] == x;
    LeqTotal(x, x);
    assert i > 0 ==> Less(xs[0], xs[i]);
  }

  lemma TailElements(xs: seq<string>, x: string)
    requires StrictlySorted(xs) && xs != []
    ensures x in xs[1..] <==> x in xs && x != xs[0]
  {
    if x in xs[1..] {
      var i :| 0 <= i < |xs[1..]| && xs[1..][i] == x;
      assert Less(xs[0], xs[i + 1]);
    }
  }

  /** A strictly sorted sequence is determined by its elements. */
  lemma {:induction false} SortedUnique(xs: seq<string>, ys: seq<string>)
    requires StrictlySorted(xs) && StrictlySorted(ys)
    requires forall x :: x in xs <==> x in ys
    ensures xs == ys
  {
    hide Leq;
    if ys != [] {
      assert ys[0] in xs;
    }
    if xs != [] {
      assert xs[0] in ys;
      HeadIsLeast(xs, ys[0]);
      HeadIsLeast(ys, xs[0]);
      LeqTotal(xs[0], ys[0]);
      forall x
        ensures x in xs[1..] <==> x in ys[1..]
      {
        TailElements(xs, x);
        TailElements(ys, x);
      }
      SortedUnique(xs[1..], ys[1..]);
      assert xs == [xs[0]] + xs[1..];
    }
  }

  lemma {:induction false} LeastExists(s: set<string>) returns (least: string)
    requires s != {}
    ensures least in s && forall x | x in s :: Leq(least, x)
  {
    var x :| x in s;
    if s == {x} {
      LeqTotal(x, x);
      least := x;
    } else {
      var y := LeastExists(s - {x});
      LeqTotal(x, y);
      LeqTotal(x, x);
      least := if Leq(x, y) then x else y;
      forall z | z in s
        ensures Leq(least, z)
      {
        if z != x {
          LeqTrans(least, y, z);
        }
      }
    }
  }

  lemma {:induction false} SortedExists(s: set<string>) returns (xs: seq<string>)
    ensures StrictlySorted(xs)
    ensures forall x :: x in xs <==> x in s
  {
    if s == {} {
      xs := [];
    } else {
      var least := LeastExists(s);
      var rest := SortedExists(s - {least});
      xs := [least] + rest;
    }
  }

  /** The one strictly sorted sequence of the elements of `s`. */
  ghost function Sorted(s: set<string>): (xs: seq<string>)
    ensures StrictlySorted(xs)
    ensures forall x :: x in xs <==> x in s
  {
    assert exists xs :: StrictlySorted(xs) && forall x :: x in xs <==> x in s by {
      var xs := SortedExists(s);
    }
    var xs :| StrictlySorted(xs) && forall x :: x in xs <==> x in s;
    xs
  }

  /** The elements that pass a test, in the order of a walk. */
  function Keep(walk: seq<string>, test: string -> bool): seq<string> {
    if walk == [] then []
    else
      var last := walk[|walk| - 1];
      Keep(walk[..|walk| - 1], test) + (if test(last) then [last] else [])
  }

  lemma KeepNone(test: string -> bool)
    ensures Keep([], test) == []
  {
  }

  lemma KeepStep(walk: seq<string>, i: nat, test: string -> bool)
    requires i < |walk|
    ensures Keep(walk[..i + 1], test) == Keep(walk[..i], test) + (if test(walk[i]) then [walk[i]] else [])
  {
    assert walk[..i + 1][..i] == walk[..i];
  }

  lemma {:induction false} KeepExact(walk: seq<string>, test: string -> bool)
    requires StrictlySorted(walk)
    ensures StrictlySorted(Keep(walk, test))
    ensures forall x :: x in Keep(walk, test) <==> x in walk && test(x)
    decreases |walk|
  {
    if walk != [] {
      var init, last := walk[..|walk| - 1], walk[|walk| - 1];
      KeepExact(init, test);
      assert walk == init + [last];
      forall i | 0 <= i < |Keep(init, test)|
        ensures Less(Keep(init, test)[i], last)
      {
        assert Keep(init, test)[i] in init;
      }
    }
  }

  /** Walking a sorted set and keeping what passes yields the sorted subset. */
  lemma KeepOfSorted(s: set<string>, test: string -> bool)
    ensures Keep(Sorted(s), test) == Sorted(set x | x in s && test(x))
  {
    KeepExact(Sorted(s), test);
    SortedUnique(Keep(Sorted(s), test), Sorted(set x | x in s && test(x)));
  }

  /** The walk order of a sorted set: its elements, each once, in increasing order. */
  method SortedElements(s: set<string>) returns (xs: seq<string>)
    ensures xs == Sorted(s)
  {
    xs := [];
    var rest := s;
    while rest != {}
      invariant rest <= s
      invariant StrictlySorted(xs)
      invariant forall x :: x in xs <==> x in s - rest
      invariant forall x, y | x in xs && y in rest :: Less(x, y)
      decreases |rest|
    {
      ghost var least := LeastExists(rest);
      var m :| m in rest && forall x | x in rest :: Leq(m, x);
      xs := xs + [m];
      rest := rest - {m};
    }
    SortedUnique(xs, Sorted(s));
  }

  // Decimal numerals, as `to_string` writes them

  function Digits(n: nat): string {
    if n < 10 then [('0' as int + n) as char] else Digits(n / 10) + [('0' as int + n % 10) as char]
  }

  function Decimal(n: int): string {
    if n < 0 then "-" + Digits(-n) else Digits(n)
  }

  function Value(digits: string): nat {
    if digits == "" then 0
    else
      var d := digits[|digits| - 1] as int - '0' as int;
      10 * Value(digits[..|digits| - 1]) + (if 0 <= d <= 9 then d else 0)
  }

  lemma {:induction false} ValueOfDigits(n: nat)
    ensures Value(Digits(n)) == n && Digits(n) != "" && '0' <= Digits(n)[0] <= '9'
  {
    var c := ('0' as int + n % 10) as char;
    if n >= 10 {
      ValueOfDigits(n / 10);
      assert Digits(n)[..|Digits(n)| - 1] == Digits(n / 10);
    } else {
      assert Digits(n)[..0] == "" && Value("") == 0;
    }
  }

  /** Different exit codes show differently. */
  lemma DecimalInjective(a: int, b: int)
    ensures Decimal(a) == Decimal(b) <==> a == b
  {
    ValueOfDigits(if a < 0 then -a else a);
    ValueOfDigits(if b < 0 then -b else b);
    if Decimal(a) == Decimal(b) && a < 0 && b < 0 {
      assert Decimal(a)[1..] == Digits(-a) && Decimal(b)[1..] == Digits(-b);
    }
  }

  lemma {:induction false} DigitsOnly(n: nat)
    ensures forall i | 0 <= i < |Digits(n)| :: '0' <= Digits(n)[i] <= '9'
  {
    if n >= 10 {
      DigitsOnly(n / 10);
    }
  }

  /** A numeral reads as its number: digits alone, or a minus sign before those of the opposite. */
  lemma DecimalReads(n: int)
    ensures n >= 0 ==> Value(Decimal(n)) == n && forall i | 0 <= i < |Decimal(n)| :: '0' <= Decimal(n)[i] <= '9'
    ensures n < 0 ==> Decimal(n) == "-" + Decimal(-n)
  {
    if n >= 0 {
      ValueOfDigits(n);
      DigitsOnly(n);
    }
  }
}
