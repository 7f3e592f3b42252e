/**
 * String operations the stores rely on: `toLowerCase` (restricted to ASCII), `includes`,
 * the default string order of `Array.prototype.sort` (code-unit-wise lexicographic),
 * sorted duplicate-free listing of a collection of strings, and the decimal rendering of
 * a number inside a template literal.
 */
module Text {

  function LowerChar(c: char): char {
    if 'A' <= c <= 'Z' then (c as int + 32) as char else c
  }

  /** `s.toLowerCase()`, for ASCII letters. */
  function Lower(s: string): (r: string)
    ensures |r| == |s|
  {
    seq(|s|, i requires 0 <= i < |s| => LowerChar(s[i]))
  }

  /** `hay.includes(needle)`: `needle` occurs at some position of `hay`. */
  predicate Contains(hay: string, needle: string)
    decreases |hay|
  {
    |needle| <= |hay| && (hay[..|needle|] == needle || (|hay| > 0 && Contains(hay[1..], needle)))
  }

  /** Lower-casing twice is lower-casing once. */
  lemma LowerIdempotent(s: string)
    ensures Lower(Lower(s)) == Lower(s)
  {
    forall i | 0 <= i < |s|
      ensures Lower(Lower(s))[i] == Lower(s)[i]
    {
      assert Lower(s)[i] == LowerChar(s[i]);
    }
  }

  /** `needle` occurs in `hay` starting at position `i`. */
  predicate OccursAt(hay: string, needle: string, i: int) {
    0 <= i <= |hay| - |needle| && hay[i..i + |needle|] == needle
  }

  /** Reference definition of `includes`: `needle` occurs in `hay` at some position. */
  lemma {:induction false} ContainsAt(hay: string, needle: string)
    ensures Contains(hay, needle) <==> exists i :: OccursAt(hay, needle, i)
  {
    var n := |needle|;
    if n <= |hay| && hay[..n] == needle {
      assert OccursAt(hay, needle, 0);
    } else if n <= |hay| && |hay| > 0 {
      ContainsAt(hay[1..], needle);
      if exists i :: OccursAt(hay[1..], needle, i) {
        var i :| OccursAt(hay[1..], needle, i);
        assert hay[1..][i..i + n] == hay[i + 1..i + 1 + n];
        assert OccursAt(hay, needle, i + 1);
      }
      if exists i :: OccursAt(hay, needle, i) {
        var i :| OccursAt(hay, needle, i);
        assert i != 0;
        assert hay[1..][i - 1..i - 1 + n] == hay[i..i + n];
        assert OccursAt(hay[1..], needle, i - 1);
      }
    }
  }

  // ---------------------------------------------------------------------------------
  // The order used by `sort()` without a comparator.

  /** `a` sorts strictly before `b`: lexicographic on characters, a proper prefix first. */
  predicate StrLess(a: string, b: string) {
    if a == [] then b != []
    else b != [] && (a[0] < b[0] || (a[0] == b[0] && StrLess(a[1..], b[1..])))
  }

  lemma {:induction false} StrLessIrreflexive(a: string)
    ensures !StrLess(a, a)
  {
    if a != [] {
      StrLessIrreflexive(a[1..]);
    }
  }

  lemma {:induction false} StrLessTransitive(a: string, b: string, c: string)
    requires StrLess(a, b) && StrLess(b, c)
    ensures StrLess(a, c)
  {
    if a != [] && a[0] == b[0] && b[0] == c[0] {
      StrLessTransitive(a[1..], b[1..], c[1..]);
    }
  }

  lemma {:induction false} StrLessTotal(a: string, b: string)
    requires a != b
    ensures StrLess(a, b) || StrLess(b, a)
  {
    if a != [] && b != [] && a[0] == b[0] {
      assert a == [a[0]] + a[1..] && b == [b[0]] + b[1..];
      StrLessTotal(a[1..], b[1..]);
    }
  }

  lemma StrLessAsymmetric(a: string, b: string)
    requires StrLess(a, b)
    ensures !StrLess(b, a)
  {
    if StrLess(b, a) {
      StrLessTransitive(a, b, a);
      StrLessIrreflexive(a);
    }
  }

  /** Sorted in the default order with no element repeated. */
  predicate StrictlySorted(xs: seq<string>) {
    forall i, j :: 0 <= i < j < |xs| ==> StrLess(xs[i], xs[j])
  }

  /** A strictly sorted list holds every value at most once. */
  lemma StrictlySortedDistinct(xs: seq<string>)
    requires StrictlySorted(xs)
    ensures forall i, j :: 0 <= i < j < |xs| ==> xs[i] != xs[j]
  {
    forall i, j | 0 <= i < j < |xs|
      ensures xs[i] != xs[j]
    {
      StrLessIrreflexive(xs[i]);
    }
  }

  lemma SortedHeadBelowTail(xs: seq<string>)
    requires StrictlySorted(xs) && xs != []
    ensures forall t :: t in xs[1..] ==> StrLess(xs[0], t)
  {
    forall t | t in xs[1..]
      ensures StrLess(xs[0], t)
    {
      var j :| 0 <= j < |xs[1..]| && xs[1..][j] == t;
      assert xs[j + 1] == t;
    }
  }

  lemma BelowHeadBelowAll(h: string, xs: seq<string>)
    requires StrictlySorted(xs) && xs != [] && StrLess(h, xs[0])
    ensures forall t :: t in xs ==> StrLess(h, t)
  {
    SortedHeadBelowTail(xs);
    forall t | t in xs
      ensures StrLess(h, t)
    {
      if t != xs[0] {
        StrLessTransitive(h, xs[0], t);
      }
    }
  }

  lemma ConsSorted(h: string, xs: seq<string>)
    requires StrictlySorted(xs) && forall t :: t in xs ==> StrLess(h, t)
    ensures StrictlySorted([h] + xs)
  {
    var ys := [h] + xs;
    forall i, j | 0 <= i < j < |ys|
      ensures StrLess(ys[i], ys[j])
    {
      if i == 0 {
        assert ys[j] == xs[j - 1];
      } else {
        assert ys[i] == xs[i - 1] && ys[j] == xs[j - 1];
      }
    }
  }

  /** Inserts `s` into a strictly sorted list unless it is already there. */
  function InsertSorted(xs: seq<string>, s: string): (r: seq<string>)
    requires StrictlySorted(xs)
    ensures StrictlySorted(r)
    ensures forall t :: t in r <==> t in xs || t == s
  {
    if xs == [] then [s]
    else if s == xs[0] then xs
    else if StrLess(s, xs[0]) then
      BelowHeadBelowAll(s, xs);
      ConsSorted(s, xs);
      [s] + xs
    else
      var rest := InsertSorted(xs[1..], s);
      assert xs == [xs[0]] + xs[1..];
      SortedHeadBelowTail(xs);
      StrLessTotal(s, xs[0]);
      ConsSorted(xs[0], rest);
      [xs[0]] + rest
  }

  /**
   * The values of `vals`, each once, in the default sort order: what
   * `Array.from(new Set(vals)).sort()` yields.
   */
  function SortedUnique(vals: seq<string>): (r: seq<string>)
    ensures StrictlySorted(r)
    ensures forall t :: t in r <==> t in vals
  {
    if vals == [] then []
    else InsertSorted(SortedUnique(vals[1..]), vals[0])
  }

  lemma SameElementsSameEmptiness(a: seq<string>, b: seq<string>)
    requires forall t :: t in a <==> t in b
    ensures a == [] <==> b == []
  {
    if a != [] {
      assert a[0] in b;
    }
    if b != [] {
      assert b[0] in a;
    }
  }

  /** There is only one strictly sorted listing of a given collection of strings. */
  lemma {:induction false} StrictlySortedUnique(a: seq<string>, b: seq<string>)
    requires StrictlySorted(a) && StrictlySorted(b)
    requires forall t :: t in a <==> t in b
    ensures a == b
  {
    SameElementsSameEmptiness(a, b);
    if a != [] {
      SortedHeadBelowTail(a);
      SortedHeadBelowTail(b);
      assert a == [a[0]] + a[1..] && b == [b[0]] + b[1..];
      if a[0] != b[0] {
        assert b[0] in a && a[0] in b;
        assert b[0] in a[1..] && a[0] in b[1..];
        StrLessAsymmetric(a[0], b[0]);
        assert false;
      }
      forall t
        ensures t in a[1..] <==> t in b[1..]
      {
        StrLessIrreflexive(t);
        if t in a[1..] {
          assert t in b && t != b[0];
        }
        if t in b[1..] {
          assert t in a && t != a[0];
        }
      }
      StrictlySortedUnique(a[1..], b[1..]);
    }
  }

  // ---------------------------------------------------------------------------------
  // Numbers inside template literals.

  function Digit(d: nat): (c: char)
    requires d < 10
    ensures '0' <= c <= '9'
  {
    (d + 48) as char
  }

  /** The decimal rendering of `n`, most significant digit first, without leading zeros. */
  function Decimal(n: nat): (r: string)
    ensures 0 < |r|
    ensures n >= 10 ==> |r| >= 2
    ensures forall i :: 0 <= i < |r| ==> '0' <= r[i] <= '9'
    ensures n > 0 ==> r[0] != '0'
  {
    if n < 10 then [Digit(n)] else Decimal(n / 10) + [Digit(n % 10)]
  }

  /** Different numbers render differently. */
  lemma {:induction false} DecimalInjective(a: nat, b: nat)
    requires Decimal(a) == Decimal(b)
    ensures a == b
  {
    if a >= 10 && b >= 10 {
      var da, db := Decimal(a), Decimal(b);
      assert da[|da| - 1] == Digit(a % 10) && db[|db| - 1] == Digit(b % 10);
      assert da[..|da| - 1] == Decimal(a / 10) && db[..|db| - 1] == Decimal(b / 10);
      DecimalInjective(a / 10, b / 10);
    }
  }
}
