/** Shared definitions: optional values, 32-bit arithmetic, finite-set facts and decimal numerals. */
module Common {

  datatype Option<+T> = None | Some(value: T)

  const INT32_MIN := -0x8000_0000
  const INT32_MAX := 0x7fff_ffff

  predicate IsInt32(x: int) {
    INT32_MIN <= x <= INT32_MAX
  }

  /** Go's int32(x): two's complement truncation. */
  function ToInt32(x: int): (r: int)
    ensures IsInt32(r)
    ensures IsInt32(x) ==> r == x
  {
    if IsInt32(x) then x
    else
      var low := x % 0x1_0000_0000;
      if low > INT32_MAX then low - 0x1_0000_0000 else low
  }

  function Min(a: int, b: int): int {
    if a <= b then a else b
  }

  function Max(a: int, b: int): int {
    if a >= b then a else b
  }

  lemma {:induction false} SubsetCardinality<T>(a: set<T>, b: set<T>)
    requires a <= b
    ensures |a| <= |b|
    ensures |a| == |b| ==> a == b
  {
    if a != {} {
      var x :| x in a;
      SubsetCardinality(a - {x}, b - {x});
    }
  }

  /** A sequence without repetitions has as many elements as its set of elements. */
  lemma {:induction false} DistinctCardinality<T>(s: seq<T>)
    requires forall i, j :: 0 <= i < j < |s| ==> s[i] != s[j]
    ensures |set x | x in s| == |s|
  {
    if s != [] {
      var last := |s| - 1;
      var init := s[..last];
      DistinctCardinality(init);
      assert (set x | x in s) == (set x | x in init) + {s[last]};
    }
  }
}

/** fmt.Sprintf("%d", n) for non-negative n. */
module Decimal {

  function Digit(d: nat): (c: char)
    requires d < 10
  {
    "0123456789"[d]
  }

  function Dec(n: nat): (s: string)
    ensures s != ""
  {
    if n < 10 then [Digit(n)] else Dec(n / 10) + [Digit(n % 10)]
  }

  /** What a numeral says, read from the left. */
  function ValueOf(s: string): int {
    if s == "" then 0 else 10 * ValueOf(s[..|s| - 1]) + (s[|s| - 1] as int - '0' as int)
  }

  /** The numeral of n has decimal digits only, no leading zero but for zero itself, and says n. */
  lemma {:induction false} DecSays(n: nat)
    ensures ValueOf(Dec(n)) == n
    ensures forall i :: 0 <= i < |Dec(n)| ==> '0' <= Dec(n)[i] <= '9'
    ensures n > 0 ==> Dec(n)[0] != '0'
  {
    var s := Dec(n);
    DigitSays(n % 10);
    if n >= 10 {
      DecSays(n / 10);
      assert s[..|s| - 1] == Dec(n / 10);
    } else {
      assert s[..0] == "";
    }
  }

  lemma DigitSays(d: nat)
    requires d < 10
    ensures Digit(d) as int == '0' as int + d
  {
    assert d == 0 || d == 1 || d == 2 || d == 3 || d == 4 || d == 5 || d == 6 || d == 7 || d == 8 || d == 9;
  }

  /** Numerals are unambiguous: two numbers that print alike are equal. */
  lemma {:induction false} DecInjective(m: nat, n: nat)
    requires Dec(m) == Dec(n)
    ensures m == n
  {
    var s, t := Dec(m), Dec(n);
    assert s[|s| - 1] == Digit(m % 10) && t[|t| - 1] == Digit(n % 10);
    assert m % 10 == n % 10;
    if m >= 10 && n >= 10 {
      assert s[..|s| - 1] == Dec(m / 10) && t[..|t| - 1] == Dec(n / 10);
      DecInjective(m / 10, n / 10);
    }
  }
}

/** The library sort the reconcilers call (sort.Slice): in place, unstable, comparison based. */
module Sorting {

  /** What sort.Slice demands of its comparison. */
  ghost predicate StrictWeakOrder<T(!new)>(less: (T, T) -> bool) {
    && (forall x :: !less(x, x))
    && (forall x, y, z :: less(x, y) && less(y, z) ==> less(x, z))
    && (forall x, y, z :: !less(x, y) && !less(y, z) ==> !less(x, z))
  }

  ghost predicate Ordered<T>(s: seq<T>, less: (T, T) -> bool) {
    forall i, j :: 0 <= i < j < |s| ==> !less(s[j], s[i])
  }

  lemma SwapKeepsElements<T>(s: seq<T>, i: nat, j: nat)
    requires i < |s| && j < |s|
    ensures multiset(s[i := s[j]][j := s[i]]) == multiset(s)
  {
  }

  method IndexOfLeast<T(!new)>(a: array<T>, from: nat, less: (T, T) -> bool) returns (k: nat)
    requires from < a.Length
    requires StrictWeakOrder(less)
    ensures from <= k < a.Length
    ensures forall q :: from <= q < a.Length ==> !less(a[q], a[k])
  {
    k := from;
    for j := from + 1 to a.Length
      invariant from <= k < a.Length
      invariant forall q :: from <= q < j ==> !less(a[q], a[k])
    {
      if less(a[j], a[k]) {
        k := j;
      }
    }
  }

  method SortSlice<T(!new)>(a: array<T>, less: (T, T) -> bool)
    requires StrictWeakOrder(less)
    modifies a
    ensures multiset(a[..]) == multiset(old(a[..]))
    ensures Ordered(a[..], less)
  {
    for i := 0 to a.Length
      invariant multiset(a[..]) == multiset(old(a[..]))
      invariant forall p, q :: 0 <= p < i && p < q < a.Length ==> !less(a[q], a[p])
    {
      var k := IndexOfLeast(a, i, less);
      SwapKeepsElements(a[..], i, k);
      ghost var before := a[..];
      a[i], a[k] := a[k], a[i];
      assert a[..] == before[i := before[k]][k := before[i]];
    }
  }
}
