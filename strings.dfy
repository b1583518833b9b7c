/**
 * String and sequence utilities the translator relies on: Go's string
 * ordering and `sort.Strings`, `strings.Join`, the first segment of
 * `strings.Split`, and the decimal text of an integer.
 */
module Strings {

  // ---------------------------------------------------------------------
  // Mapping over a sequence
  // ---------------------------------------------------------------------

  /** `f` applied to every element of `s`, in order. */
  function Map<A, B>(f: A -> B, s: seq<A>): (r: seq<B>)
    ensures |r| == |s|
    ensures forall i :: 0 <= i < |s| ==> r[i] == f(s[i])
  {
    seq(|s|, i requires 0 <= i < |s| => f(s[i]))
  }

  lemma MultisetMapConcat<A, B>(f: A -> B, p: seq<A>, q: seq<A>)
    ensures multiset(Map(f, p + q)) == multiset(Map(f, p)) + multiset(Map(f, q))
  {
    assert Map(f, p + q) == Map(f, p) + Map(f, q);
  }

  /** Taking out the element at `j` takes it out of the multiset. */
  lemma MultisetRemove<A>(s: seq<A>, j: nat)
    requires j < |s|
    ensures multiset(s[..j] + s[j + 1..]) == multiset(s) - multiset{s[j]}
  {
    assert s == s[..j] + [s[j]] + s[j + 1..];
  }

  /** One step of MapPermutation: put back the element matched at `j`. */
  lemma MapPermutationStep<A, B>(f: A -> B, a: seq<A>, b: seq<A>, j: nat)
    requires a != [] && j < |b| && b[j] == a[0]
    requires multiset(Map(f, a[1..])) == multiset(Map(f, b[..j] + b[j + 1..]))
    ensures multiset(Map(f, a)) == multiset(Map(f, b))
  {
    var x := a[0];
    assert a == [x] + a[1..];
    assert b == b[..j] + [x] + b[j + 1..];
    MultisetMapConcat(f, [x], a[1..]);
    MultisetMapConcat(f, b[..j] + [x], b[j + 1..]);
    MultisetMapConcat(f, b[..j], [x]);
    MultisetMapConcat(f, b[..j], b[j + 1..]);
  }

  /** Mapping a permutation gives a permutation: the order of the input
      only reorders the output. */
  lemma {:induction false} MapPermutation<A, B>(f: A -> B, a: seq<A>, b: seq<A>)
    requires multiset(a) == multiset(b)
    ensures multiset(Map(f, a)) == multiset(Map(f, b))
  {
    if a == [] {
      assert |b| == |multiset(b)| == 0;
    } else {
      assert a[0] in b by { assert a[0] in multiset(a); }
      var j :| 0 <= j < |b| && b[j] == a[0];
      MultisetRemove(b, j);
      MultisetRemove(a, 0);
      assert a[..0] + a[1..] == a[1..];
      MapPermutation(f, a[1..], b[..j] + b[j + 1..]);
      MapPermutationStep(f, a, b, j);
    }
  }

  // ---------------------------------------------------------------------
  // Go's string order
  // ---------------------------------------------------------------------

  /** Go's `a < b` on strings: lexicographic, element by element. Go
      compares UTF-8 bytes; UTF-8 preserves the order of code points, so
      comparing characters gives the same answer. */
  predicate Less(a: string, b: string)
  {
    if |a| == 0 then |b| > 0
    else if |b| == 0 then false
    else if a[0] != b[0] then a[0] < b[0]
    else Less(a[1..], b[1..])
  }

  lemma {:induction false} LessIrreflexive(a: string)
    ensures !Less(a, a)
  {
    if |a| > 0 {
      LessIrreflexive(a[1..]);
    }
  }

  lemma {:induction false} LessTransitive(a: string, b: string, c: string)
    requires Less(a, b) && Less(b, c)
    ensures Less(a, c)
  {
    if |a| > 0 && |b| > 0 && |c| > 0 && a[0] == b[0] == c[0] {
      LessTransitive(a[1..], b[1..], c[1..]);
    }
  }

  lemma {:induction false} LessTotal(a: string, b: string)
    ensures a == b || Less(a, b) || Less(b, a)
  {
    if |a| > 0 && |b| > 0 && a[0] == b[0] {
      LessTotal(a[1..], b[1..]);
      if a[1..] == b[1..] {
        assert a == [a[0]] + a[1..] && b == [b[0]] + b[1..];
      }
    }
  }

  lemma LessAsymmetric(a: string, b: string)
    requires Less(a, b)
    ensures !Less(b, a)
  {
    if Less(b, a) {
      LessTransitive(a, b, a);
      LessIrreflexive(a);
    }
  }

  /** The non-strict order `a <= b` is transitive. */
  lemma AtMostTransitive(a: string, b: string, c: string)
    requires !Less(b, a) && !Less(c, b)
    ensures !Less(c, a)
  {
    LessTotal(a, b);
    if Less(c, a) && Less(a, b) {
      LessTransitive(c, a, b);
    }
  }

  /** Non-decreasing in Go's string order. */
  predicate Sorted(s: seq<string>)
  {
    forall i, j :: 0 <= i < j < |s| ==> !Less(s[j], s[i])
  }

  // ---------------------------------------------------------------------
  // sort.Strings
  // ---------------------------------------------------------------------

  /** Every element of `s` is at least `x`. */
  predicate AllAtLeast(x: string, s: seq<string>)
  {
    forall i :: 0 <= i < |s| ==> !Less(s[i], x)
  }

  lemma AllAtLeastPermutation(x: string, a: seq<string>, b: seq<string>)
    requires AllAtLeast(x, a) && multiset(a) == multiset(b)
    ensures AllAtLeast(x, b)
  {
    forall i | 0 <= i < |b| ensures !Less(b[i], x) {
      assert b[i] in multiset(a);
      var j :| 0 <= j < |a| && a[j] == b[i];
    }
  }

  /** `x` placed into the sorted sequence `s` before the first element
      not smaller than it. */
  function Insert(x: string, s: seq<string>): (r: seq<string>)
    ensures multiset(r) == multiset(s) + multiset{x}
    ensures Sorted(s) ==> Sorted(r)
  {
    if s == [] || !Less(s[0], x) then
      InsertFront(x, s);
      [x] + s
    else
      var tail := Insert(x, s[1..]);
      assert s == [s[0]] + s[1..];
      if Sorted(s) then
        assert AllAtLeast(s[0], s[1..] + [x]) by {
          LessAsymmetric(s[0], x);
        }
        AllAtLeastPermutation(s[0], s[1..] + [x], tail);
        [s[0]] + tail
      else
        [s[0]] + tail
  }

  lemma InsertFront(x: string, s: seq<string>)
    requires s == [] || !Less(s[0], x)
    ensures Sorted(s) ==> Sorted([x] + s)
  {
    if Sorted(s) && s != [] {
      forall j | 1 < j <= |s| ensures !Less(([x] + s)[j], x) {
        AtMostTransitive(x, s[0], s[j - 1]);
      }
    }
  }

  /** Go's `sort.Strings`: the elements of `s` in non-decreasing order. */
  function Sort(s: seq<string>): (r: seq<string>)
    ensures Sorted(r)
    ensures multiset(r) == multiset(s)
    ensures |r| == |s|
  {
    if s == [] then []
    else
      assert s == [s[0]] + s[1..];
      Insert(s[0], Sort(s[1..]))
  }

  /** The head of a sorted sequence is its least element. */
  lemma SortedHeadLeast(a: seq<string>, v: string)
    requires Sorted(a) && v in multiset(a)
    ensures a != [] && !Less(v, a[0])
  {
    var k :| 0 <= k < |a| && a[k] == v;
    if k == 0 {
      LessIrreflexive(v);
    }
  }

  lemma SortedTail(a: seq<string>)
    requires Sorted(a) && a != []
    ensures Sorted(a[1..]) && multiset(a[1..]) == multiset(a) - multiset{a[0]}
  {
    assert multiset(a[1..]) == multiset(a) - multiset{a[0]} by {
      MultisetRemove(a, 0);
      assert a[..0] + a[1..] == a[1..];
    }
    forall i, j | 0 <= i < j < |a| - 1 ensures !Less(a[1..][j], a[1..][i]) {
      assert a[1..][j] == a[j + 1] && a[1..][i] == a[i + 1];
    }
  }

  /** A sorted permutation is unique: two sorted sequences with the same
      elements are equal. */
  lemma {:induction false} SortedUnique(a: seq<string>, b: seq<string>)
    requires Sorted(a) && Sorted(b) && multiset(a) == multiset(b)
    ensures a == b
  {
    if a == [] {
      assert |b| == |multiset(b)| == 0;
    } else {
      assert a[0] in multiset(a);
      SortedHeadLeast(b, a[0]);
      SortedHeadLeast(a, b[0]);
      LessTotal(a[0], b[0]);
      SortedTail(a);
      SortedTail(b);
      SortedUnique(a[1..], b[1..]);
      assert a == [a[0]] + a[1..] && b == [b[0]] + b[1..];
    }
  }

  /** `sort.Strings` does not depend on the order it is given its input. */
  lemma SortOrderIndependent(a: seq<string>, b: seq<string>)
    requires multiset(a) == multiset(b)
    ensures Sort(a) == Sort(b)
  {
    SortedUnique(Sort(a), Sort(b));
  }

  // ---------------------------------------------------------------------
  // strings.Join
  // ---------------------------------------------------------------------

  /** Go's `strings.Join(parts, sep)`: the parts with `sep` between
      neighbours; empty for no parts. */
  function Join(sep: string, parts: seq<string>): string
  {
    if |parts| == 0 then ""
    else if |parts| == 1 then parts[0]
    else Join(sep, parts[..|parts| - 1]) + sep + parts[|parts| - 1]
  }

  /** Appending one more part adds the separator only after the first. */
  lemma JoinSnoc(sep: string, parts: seq<string>, x: string)
    ensures Join(sep, parts + [x]) == Join(sep, parts) + (if parts == [] then "" else sep) + x
  {
    assert (parts + [x])[..|parts|] == parts;
  }

  lemma ConcatAssociative(a: string, b: string, c: string)
    ensures (a + b) + c == a + (b + c)
  {
  }

  /** Joining one more element of `parts`. */
  lemma JoinPrefixStep(sep: string, parts: seq<string>, i: nat)
    requires i < |parts|
    ensures Join(sep, parts[..i + 1]) == Join(sep, parts[..i]) + ((if i == 0 then "" else sep) + parts[i])
  {
    assert parts[..i + 1] == parts[..i] + [parts[i]];
    JoinSnoc(sep, parts[..i], parts[i]);
  }

  // ---------------------------------------------------------------------
  // strings.Split(s, sep)[0]
  // ---------------------------------------------------------------------

  /** The first element of Go's `strings.Split(s, [sep])`: the longest
      prefix of `s` that does not contain `sep`. */
  function FirstSegment(s: string, sep: char): (r: string)
    ensures r <= s
    ensures sep !in r
    ensures |r| < |s| ==> s[|r|] == sep
  {
    if |s| == 0 || s[0] == sep then ""
    else [s[0]] + FirstSegment(s[1..], sep)
  }

  lemma FirstSegmentWhole(s: string, sep: char)
    ensures FirstSegment(s, sep) == s <==> sep !in s
  {
  }

  // ---------------------------------------------------------------------
  // Decimal text of integers (fmt's %v for Go integer kinds)
  // ---------------------------------------------------------------------

  function DigitChar(d: nat): (c: char)
    requires d < 10
    ensures '0' <= c <= '9'
  {
    ['0', '1', '2', '3', '4', '5', '6', '7', '8', '9'][d]
  }

  function DigitValue(c: char): nat
  {
    if '0' <= c <= '9' then (c as int - '0' as int) as nat else 0
  }

  predicate AllDigits(s: string)
  {
    forall i :: 0 <= i < |s| ==> '0' <= s[i] <= '9'
  }

  /** Decimal digits of `n`, most significant first, without leading
      zeros. */
  function NatText(n: nat): (s: string)
    ensures |s| > 0 && AllDigits(s)
    ensures |s| > 1 ==> s[0] != '0'
  {
    if n < 10 then [DigitChar(n)]
    else NatText(n / 10) + [DigitChar(n % 10)]
  }

  /** Digits without a leading zero, unless the number is zero itself. */
  predicate CanonicalDigits(s: string)
  {
    |s| > 0 && AllDigits(s) && (|s| > 1 ==> s[0] != '0')
  }

  /** The text Go prints for an integer: canonical digits, preceded by '-'
      for a negative number (never "-0"). */
  predicate CanonicalDecimal(s: string)
  {
    if |s| > 0 && s[0] == '-' then CanonicalDigits(s[1..]) && s[1..] != "0"
    else CanonicalDigits(s)
  }

  /** Decimal text of `n`, with a leading '-' when negative. */
  function IntText(n: int): (s: string)
    ensures |s| > 0
    ensures n < 0 <==> s[0] == '-'
    ensures n >= 0 ==> AllDigits(s)
    ensures n < 0 ==> AllDigits(s[1..])
  {
    if n < 0 then "-" + NatText(-n) else NatText(n)
  }

  /** The text printed for an integer is its canonical spelling. */
  lemma IntTextCanonical(n: int)
    ensures CanonicalDecimal(IntText(n))
  {
    if n < 0 {
      assert IntText(n)[1..] == NatText(-n);
      NatTextPositive(-n);
    }
  }

  /** The value of a string of decimal digits. */
  function DigitsValue(s: string): nat
  {
    if |s| == 0 then 0
    else DigitsValue(s[..|s| - 1]) * 10 + DigitValue(s[|s| - 1])
  }

  /** Reading back decimal text. */
  function ParseInt(s: string): int
  {
    if |s| > 0 && s[0] == '-' then 0 - DigitsValue(s[1..]) as int else DigitsValue(s)
  }

  lemma {:induction false} NatTextRoundTrip(n: nat)
    ensures DigitsValue(NatText(n)) == n
  {
    var s := NatText(n);
    if n >= 10 {
      NatTextRoundTrip(n / 10);
      assert s[..|s| - 1] == NatText(n / 10);
    }
  }

  /** Only zero prints as "0". */
  lemma NatTextPositive(n: nat)
    requires n > 0
    ensures NatText(n) != "0"
  {
    NatTextRoundTrip(n);
    assert DigitsValue("0") == DigitsValue("0"[..0]) * 10 + DigitValue('0');
  }

  /** Canonical digits are the text of their own value. */
  lemma {:induction false} CanonicalDigitsAreNatText(s: string)
    requires CanonicalDigits(s)
    ensures s == NatText(DigitsValue(s))
  {
    var last := s[|s| - 1];
    var d := DigitValue(last);
    assert DigitChar(d) == last;
    if |s| == 1 {
      assert s[..0] == "";
      assert DigitsValue(s) == d;
      assert NatText(d) == [last];
    } else {
      var p := s[..|s| - 1];
      assert p[0] == s[0];
      CanonicalDigitsAreNatText(p);
      var m := DigitsValue(p);
      assert m > 0 by {
        assert NatText(0) == "0";
      }
      var n := m * 10 + d;
      assert DigitsValue(s) == n;
      assert n / 10 == m && n % 10 == d;
      assert NatText(n) == p + [last];
      assert s == p + [last];
    }
  }

  /** The canonical decimal text of a number is unique: any canonical text
      is the text `IntText` prints for the number it reads as. */
  lemma CanonicalDecimalUnique(s: string)
    requires CanonicalDecimal(s)
    ensures s == IntText(ParseInt(s))
  {
    if |s| > 0 && s[0] == '-' {
      var t := s[1..];
      CanonicalDigitsAreNatText(t);
      assert DigitsValue(t) != 0;
      assert s == "-" + t;
    } else {
      CanonicalDigitsAreNatText(s);
    }
  }

  /** The decimal text of an integer reads back as that integer. */
  lemma IntTextRoundTrip(n: int)
    ensures ParseInt(IntText(n)) == n
  {
    NatTextRoundTrip(if n < 0 then -n else n);
    if n < 0 {
      assert IntText(n)[1..] == NatText(-n);
    }
  }
}
