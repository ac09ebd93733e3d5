// Byte strings as Go has them: every `char` stands for one byte, and comparison is bytewise.
module Text {

  datatype Option<+T> = None | Some(value: T)

  predicate HasPrefix(s: string, prefix: string) {
    |prefix| <= |s| && s[..|prefix|] == prefix
  }

  predicate HasSuffix(s: string, suffix: string) {
    |suffix| <= |s| && s[|s| - |suffix|..] == suffix
  }

  function TrimSuffix(s: string, suffix: string): string {
    if HasSuffix(s, suffix) then s[..|s| - |suffix|] else s
  }

  // The order behind Go's `<` on strings and sort.Strings.
  predicate Less(a: string, b: string) {
    if a == "" then b != ""
    else b != "" && (a[0] < b[0] || (a[0] == b[0] && Less(a[1..], b[1..])))
  }

  lemma {:induction false} LessIrreflexive(a: string)
    ensures !Less(a, a)
  {
    if a == "" {
    } else {
      LessIrreflexive(a[1..]);
    }
  }

  lemma {:induction false} LessTransitive(a: string, b: string, c: string)
    requires Less(a, b) && Less(b, c)
    ensures Less(a, c)
  {
    if a != "" && a[0] == b[0] && b[0] == c[0] {
      LessTransitive(a[1..], b[1..], c[1..]);
    }
  }

  lemma {:induction false} LessTotal(a: string, b: string)
    ensures Less(a, b) || a == b || Less(b, a)
  {
    if a != "" && b != "" && a[0] == b[0] {
      LessTotal(a[1..], b[1..]);
      assert a[1..] == b[1..] ==> a == [a[0]] + a[1..] == b;
    }
  }

  // Comparing equal-length strings: a difference before the last byte decides, the last byte breaks a tie.
  lemma {:induction false} LessSnoc(a: string, x: char, b: string, y: char)
    requires |a| == |b|
    ensures Less(a + [x], b + [y]) <==> Less(a, b) || (a == b && x < y)
  {
    if a != "" {
      assert (a + [x])[1..] == a[1..] + [x] && (b + [y])[1..] == b[1..] + [y];
      LessSnoc(a[1..], x, b[1..], y);
      assert a[0] == b[0] && a[1..] == b[1..] ==> a == [a[0]] + a[1..] == b;
    } else {
      assert (a + [x])[1..] == "" == (b + [y])[1..];
    }
  }

  lemma {:induction false} LessCommonSuffix(a: string, b: string, suffix: string)
    requires |a| == |b|
    ensures Less(a + suffix, b + suffix) <==> Less(a, b)
  {
    if a == "" {
      assert a + suffix == suffix == b + suffix;
      LessIrreflexive(suffix);
    } else {
      assert (a + suffix)[1..] == a[1..] + suffix && (b + suffix)[1..] == b[1..] + suffix;
      LessCommonSuffix(a[1..], b[1..], suffix);
    }
  }

  // ---- sort.Strings and sort.Slice by a string key ------------------------

  // sort.Strings is SortBy(Self, _).
  function Self(s: string): string { s }

  ghost predicate SortedBy<T>(key: T -> string, xs: seq<T>) {
    forall i, j :: 0 <= i < j < |xs| ==> Less(key(xs[i]), key(xs[j])) || key(xs[i]) == key(xs[j])
  }

  ghost predicate StrictlySortedBy<T>(key: T -> string, xs: seq<T>) {
    forall i, j :: 0 <= i < j < |xs| ==> Less(key(xs[i]), key(xs[j]))
  }

  ghost predicate DistinctBy<T>(key: T -> string, xs: seq<T>) {
    forall i, j :: 0 <= i < j < |xs| ==> key(xs[i]) != key(xs[j])
  }

  ghost function Elements<T>(xs: seq<T>): set<T> {
    set x | x in xs
  }

  function Insert<T>(key: T -> string, x: T, xs: seq<T>): seq<T> {
    if xs == [] then [x]
    else if Less(key(xs[0]), key(x)) then [xs[0]] + Insert(key, x, xs[1..])
    else [x] + xs
  }

  function SortBy<T>(key: T -> string, xs: seq<T>): seq<T> {
    if xs == [] then [] else Insert(key, xs[0], SortBy(key, xs[1..]))
  }

  ghost predicate AtMost<T>(key: T -> string, x: T, xs: seq<T>) {
    forall k :: 0 <= k < |xs| ==> Less(key(x), key(xs[k])) || key(x) == key(xs[k])
  }

  lemma ConsSorted<T>(key: T -> string, x: T, xs: seq<T>)
    requires SortedBy(key, xs) && AtMost(key, x, xs)
    ensures SortedBy(key, [x] + xs)
  {
  }

  lemma {:induction false} InsertPermutes<T>(key: T -> string, x: T, xs: seq<T>)
    ensures multiset(Insert(key, x, xs)) == multiset(xs) + multiset{x}
  {
    if xs == [] {
    } else {
      assert xs == [xs[0]] + xs[1..];
      if Less(key(xs[0]), key(x)) {
        InsertPermutes(key, x, xs[1..]);
      }
    }
  }

  lemma {:induction false} InsertSorts<T>(key: T -> string, x: T, xs: seq<T>)
    requires SortedBy(key, xs)
    ensures multiset(Insert(key, x, xs)) == multiset(xs) + multiset{x}
    ensures SortedBy(key, Insert(key, x, xs))
  {
    InsertPermutes(key, x, xs);
    if xs == [] {
    } else {
      if Less(key(xs[0]), key(x)) {
        InsertSorts(key, x, xs[1..]);
        var tail := Insert(key, x, xs[1..]);
        forall k | 0 <= k < |tail| ensures Less(key(xs[0]), key(tail[k])) || key(xs[0]) == key(tail[k]) {
          assert tail[k] in multiset(tail);
          assert tail[k] == x || tail[k] in xs[1..];
        }
        ConsSorted(key, xs[0], tail);
      } else {
        LessTotal(key(xs[0]), key(x));
        forall k | 0 <= k < |xs| ensures Less(key(x), key(xs[k])) || key(x) == key(xs[k]) {
          if k > 0 && Less(key(x), key(xs[0])) && Less(key(xs[0]), key(xs[k])) {
            LessTransitive(key(x), key(xs[0]), key(xs[k]));
          }
        }
        ConsSorted(key, x, xs);
      }
    }
  }

  lemma {:induction false} SortBySorts<T>(key: T -> string, xs: seq<T>)
    ensures multiset(SortBy(key, xs)) == multiset(xs)
    ensures SortedBy(key, SortBy(key, xs))
  {
    if xs == [] {
    } else {
      assert xs == [xs[0]] + xs[1..];
      SortBySorts(key, xs[1..]);
      InsertSorts(key, xs[0], SortBy(key, xs[1..]));
    }
  }

  lemma Regroup<T>(a: seq<T>, b: seq<T>, c: seq<T>)
    ensures (a + b) + c == a + (b + c)
  {
  }

  lemma FirstIsElement<T>(xs: seq<T>)
    requires xs != []
    ensures xs[0] in Elements(xs)
  {
  }

  lemma SameElements<T>(xs: seq<T>, ys: seq<T>)
    requires multiset(xs) == multiset(ys)
    ensures Elements(xs) == Elements(ys)
  {
    forall x | x in xs ensures x in ys {
      assert x in multiset(xs);
    }
    forall y | y in ys ensures y in xs {
      assert y in multiset(ys);
    }
  }

  lemma ElementsSnoc<T>(xs: seq<T>, x: T)
    ensures Elements(xs + [x]) == Elements(xs) + {x}
  {
  }

  lemma FirstIsLeast<T>(key: T -> string, xs: seq<T>, x: T)
    requires StrictlySortedBy(key, xs) && x in Elements(xs)
    ensures xs != [] && (x == xs[0] || Less(key(xs[0]), key(x)))
  {
  }

  lemma TailElements<T>(key: T -> string, xs: seq<T>)
    requires StrictlySortedBy(key, xs) && xs != []
    ensures Elements(xs[1..]) == Elements(xs) - {xs[0]}
  {
    LessIrreflexive(key(xs[0]));
    forall x ensures x in Elements(xs[1..]) <==> x in Elements(xs) && x != xs[0] {
      assert x in xs <==> x == xs[0] || x in xs[1..];
    }
  }

  // A strictly sorted list is determined by its elements.
  lemma {:induction false} StrictlySortedUnique<T>(key: T -> string, a: seq<T>, b: seq<T>)
    requires StrictlySortedBy(key, a) && StrictlySortedBy(key, b)
    requires Elements(a) == Elements(b)
    ensures a == b
  {
    if a == [] {
      if b != [] {
        FirstIsElement(b);
        assert false;
      }
    } else {
      FirstIsElement(a);
      FirstIsLeast(key, b, a[0]);
      FirstIsElement(b);
      FirstIsLeast(key, a, b[0]);
      if a[0] != b[0] {
        LessTransitive(key(a[0]), key(b[0]), key(a[0]));
        LessIrreflexive(key(a[0]));
        assert false;
      }
      TailElements(key, a);
      TailElements(key, b);
      StrictlySortedUnique(key, a[1..], b[1..]);
      assert a == [a[0]] + a[1..] && b == [b[0]] + b[1..];
    }
  }

  // Distinct keys make a sorted list strictly sorted; the order they came in leaves no trace.
  lemma {:induction false} InsertDistinct<T>(key: T -> string, x: T, xs: seq<T>)
    requires StrictlySortedBy(key, xs) && forall y :: y in xs ==> key(y) != key(x)
    ensures StrictlySortedBy(key, Insert(key, x, xs))
  {
    InsertSorts(key, x, xs);
    if xs == [] {
    } else {
      var tail := Insert(key, x, xs[1..]);
      if Less(key(xs[0]), key(x)) {
        InsertDistinct(key, x, xs[1..]);
        forall k | 0 <= k < |tail| ensures Less(key(xs[0]), key(tail[k])) {
          InsertSorts(key, x, xs[1..]);
          assert tail[k] in multiset(tail);
          assert tail[k] == x || tail[k] in xs[1..];
        }
      } else {
        LessTotal(key(xs[0]), key(x));
        forall k | 0 <= k < |xs| ensures Less(key(x), key(xs[k])) {
          if k > 0 {
            LessTransitive(key(x), key(xs[0]), key(xs[k]));
          }
        }
      }
    }
  }

  lemma {:induction false} SortDistinct<T>(key: T -> string, xs: seq<T>)
    requires DistinctBy(key, xs)
    ensures StrictlySortedBy(key, SortBy(key, xs))
    ensures Elements(SortBy(key, xs)) == Elements(xs)
  {
    if xs == [] {
    } else {
      assert xs == [xs[0]] + xs[1..];
      assert DistinctBy(key, xs[1..]);
      SortDistinct(key, xs[1..]);
      forall y | y in SortBy(key, xs[1..]) ensures key(y) != key(xs[0]) {
        assert y in Elements(SortBy(key, xs[1..]));
        assert y in xs[1..];
      }
      InsertDistinct(key, xs[0], SortBy(key, xs[1..]));
    }
    SortBySorts(key, xs);
    SameElements(SortBy(key, xs), xs);
  }

  // Whatever order the elements are listed in, sorting yields the one strictly sorted list of them.
  lemma SortIsCanonical<T>(key: T -> string, listing: seq<T>, sorted: seq<T>)
    requires DistinctBy(key, listing) && StrictlySortedBy(key, sorted)
    requires Elements(listing) == Elements(sorted)
    ensures SortBy(key, listing) == sorted
  {
    SortDistinct(key, listing);
    StrictlySortedUnique(key, SortBy(key, listing), sorted);
  }

  // ---- decimal numbers ----------------------------------------------------

  predicate IsDigit(c: char) {
    '0' <= c <= '9'
  }

  predicate AllDigits(s: string) {
    forall i :: 0 <= i < |s| ==> IsDigit(s[i])
  }

  function Digit(d: nat): (c: char)
    requires d < 10
    ensures IsDigit(c) && DigitValue(c) == d
  {
    ('0' as int + d) as char
  }

  function DigitValue(c: char): (d: nat)
    requires IsDigit(c)
    ensures d < 10
  {
    c as int - '0' as int
  }

  // fmt's %d.
  function Decimal(n: nat): string {
    if n < 10 then [Digit(n)] else Decimal(n / 10) + [Digit(n % 10)]
  }

  // fmt's %0<width>d for a number that fits in the width.
  function Pad(n: nat, width: nat): string {
    if width == 0 then "" else Pad(n / 10, width - 1) + [Digit(n % 10)]
  }

  function Number(s: string): nat
    requires AllDigits(s)
  {
    if s == "" then 0 else 10 * Number(s[..|s| - 1]) + DigitValue(s[|s| - 1])
  }

  function Pow10(k: nat): nat {
    if k == 0 then 1 else 10 * Pow10(k - 1)
  }

  lemma {:induction false} DecimalNumber(n: nat)
    ensures Decimal(n) != "" && AllDigits(Decimal(n)) && Number(Decimal(n)) == n
  {
    if n >= 10 {
      DecimalNumber(n / 10);
      var s := Decimal(n);
      assert s[..|s| - 1] == Decimal(n / 10);
    } else {
      assert Decimal(n)[..0] == "";
    }
  }

  lemma {:induction false} PadNumber(n: nat, width: nat)
    requires n < Pow10(width)
    ensures |Pad(n, width)| == width && AllDigits(Pad(n, width)) && Number(Pad(n, width)) == n
  {
    if width == 0 {
    } else {
      PadNumber(n / 10, width - 1);
      var s := Pad(n, width);
      assert s[..|s| - 1] == Pad(n / 10, width - 1);
    }
  }

  // Equal-width digit strings sort as the numbers they write.
  lemma {:induction false} DigitOrder(a: string, b: string)
    requires |a| == |b| && AllDigits(a) && AllDigits(b)
    ensures Less(a, b) <==> Number(a) < Number(b)
    ensures a == b <==> Number(a) == Number(b)
  {
    if a == "" {
    } else {
      var a', x := a[..|a| - 1], a[|a| - 1];
      var b', y := b[..|b| - 1], b[|b| - 1];
      DigitOrder(a', b');
      assert a == a' + [x] && b == b' + [y];
      LessSnoc(a', x, b', y);
      assert x < y <==> DigitValue(x) < DigitValue(y);
    }
  }

  const MAX_INT64: int := 0x7fff_ffff_ffff_ffff

  // strconv.ParseInt(s, 10, 64); None stands for its error.
  function ParseInt64(s: string): Option<int> {
    var signed := s != "" && (s[0] == '+' || s[0] == '-');
    var digits := if signed then s[1..] else s;
    if digits == "" || !AllDigits(digits) then None
    else
      var n: int := Number(digits);
      if signed && s[0] == '-' then (if n <= MAX_INT64 + 1 then Some(-n) else None)
      else if n <= MAX_INT64 then Some(n) else None
  }

  ghost predicate Writes(s: string, sign: string, digits: string, n: int) {
    && s == sign + digits && sign in {"", "+", "-"} && digits != "" && AllDigits(digits)
    && (if sign == "-" then -1 else 1) * Number(digits) == n
    && -0x8000_0000_0000_0000 <= n <= 0x7fff_ffff_ffff_ffff
  }

  lemma ParsedIsWritten(s: string, n: int)
    requires ParseInt64(s) == Some(n)
    ensures exists sign, digits :: Writes(s, sign, digits, n)
  {
    var signed := s != "" && (s[0] == '+' || s[0] == '-');
    var digits := if signed then s[1..] else s;
    assert AllDigits(digits) && digits != "";
    var sign := if signed then [s[0]] else "";
    assert s == sign + digits;
    assert signed ==> sign == "+" || sign == "-";
    assert Writes(s, sign, digits, n);
  }

  lemma WrittenParses(s: string, sign: string, digits: string, n: int)
    requires Writes(s, sign, digits, n)
    ensures ParseInt64(s) == Some(n)
  {
    assert IsDigit(digits[0]);
    if sign == "" {
      assert s == digits;
    } else {
      assert s[1..] == digits && s[0] == sign[0];
    }
  }

  // A number parses exactly if it is written as digits, one sign at most before them, and fits.
  lemma ParsesIff(s: string, n: int)
    ensures ParseInt64(s) == Some(n) <==> exists sign, digits :: Writes(s, sign, digits, n)
  {
    if ParseInt64(s) == Some(n) {
      ParsedIsWritten(s, n);
    }
    if sign, digits :| Writes(s, sign, digits, n) {
      WrittenParses(s, sign, digits, n);
    }
  }
}
