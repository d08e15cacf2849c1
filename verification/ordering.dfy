/** Orders used by the store: the byte-wise (here: code-point-wise) order on
    strings that Redis applies to equal-score members, and a generic sort of a
    finite set by a strict total order. */
module Ordering {

  /** `a` sorts strictly before `b` lexicographically: a proper prefix sorts
      first, otherwise the first differing character decides. */
  predicate StrLess(a: string, b: string)
    decreases |a|
  {
    if |a| == 0 then |b| > 0
    else if |b| == 0 then false
    else if a[0] == b[0] then StrLess(a[1..], b[1..])
    else a[0] < b[0]
  }

  lemma {:induction false} StrLessIrreflexive(a: string)
    ensures !StrLess(a, a)
    decreases |a|
  {
    if |a| > 0 {
      StrLessIrreflexive(a[1..]);
    }
  }

  lemma {:induction false} StrLessTransitive(a: string, b: string, c: string)
    requires StrLess(a, b) && StrLess(b, c)
    ensures StrLess(a, c)
    decreases |a|
  {
    if |a| > 0 && a[0] == b[0] && b[0] == c[0] {
      StrLessTransitive(a[1..], b[1..], c[1..]);
    }
  }

  lemma {:induction false} StrLessTotal(a: string, b: string)
    requires a != b
    ensures StrLess(a, b) || StrLess(b, a)
    decreases |a|
  {
    if |a| > 0 && |b| > 0 && a[0] == b[0] {
      assert a == [a[0]] + a[1..] && b == [b[0]] + b[1..];
      StrLessTotal(a[1..], b[1..]);
    }
  }

  /** `less` is a strict total order on the elements of `s`. */
  ghost predicate StrictTotalOn<T>(less: (T, T) -> bool, s: set<T>) {
    && (forall x | x in s :: !less(x, x))
    && (forall x, y | x in s && y in s && x != y :: less(x, y) || less(y, x))
    && (forall x, y, z | x in s && y in s && z in s && less(x, y) && less(y, z) :: less(x, z))
  }

  /** `m` is the least element of `s` under `less`. */
  predicate IsLeast<T>(less: (T, T) -> bool, m: T, s: set<T>) {
    m in s && forall y | y in s && y != m :: less(m, y)
  }

  /** `xs` is strictly increasing under `less`. */
  ghost predicate StrictlySorted<T>(less: (T, T) -> bool, xs: seq<T>) {
    forall i, j | 0 <= i < j < |xs| :: less(xs[i], xs[j])
  }

  lemma LeastExists<T>(less: (T, T) -> bool, s: set<T>)
    requires s != {}
    requires StrictTotalOn(less, s)
    ensures exists m :: IsLeast(less, m, s)
    decreases |s|
  {
    var x :| x in s;
    if s - {x} == {} {
      assert s == {x};
      assert IsLeast(less, x, s);
    } else {
      LeastExists(less, s - {x});
      var m :| IsLeast(less, m, s - {x});
      if less(m, x) {
        assert IsLeast(less, m, s);
      } else {
        assert IsLeast(less, x, s);
      }
    }
  }

  lemma LeastUnique<T>(less: (T, T) -> bool, s: set<T>)
    requires StrictTotalOn(less, s)
    ensures forall a, b | IsLeast(less, a, s) && IsLeast(less, b, s) :: a == b
  {
  }

  /** The least element of a non-empty set. */
  function Least<T(==)>(s: set<T>, less: (T, T) -> bool): (m: T)
    requires s != {} && StrictTotalOn(less, s)
    ensures IsLeast(less, m, s)
  {
    LeastExists(less, s);
    LeastUnique(less, s);
    var m :| IsLeast(less, m, s);
    m
  }

  /** The elements of `s` listed in increasing order: the least element
      first, then the rest sorted. */
  function SortBy<T(==)>(s: set<T>, less: (T, T) -> bool): (r: seq<T>)
    requires StrictTotalOn(less, s)
    ensures |r| == |s|
    ensures forall x | x in s :: x in r
    ensures forall i | 0 <= i < |r| :: r[i] in s
    ensures StrictlySorted(less, r)
    decreases |s|
  {
    if s == {} then []
    else
      var m := Least(s, less);
      StrictTotalOnSubset(less, s, s - {m});
      var rest := SortBy(s - {m}, less);
      var r := [m] + rest;
      assert StrictlySorted(less, r) by {
        forall i, j | 0 <= i < j < |r| ensures less(r[i], r[j]) {
          assert r[j] == rest[j - 1] && r[j] in s - {m};
          if i > 0 {
            assert r[i] == rest[i - 1];
          }
        }
      }
      assert forall x | x in s :: x in r by {
        forall x | x in s ensures x in r {
          if x != m {
            assert x in rest;
          }
        }
      }
      r
  }

  lemma StrictTotalOnSubset<T>(less: (T, T) -> bool, s: set<T>, t: set<T>)
    requires StrictTotalOn(less, s) && t <= s
    ensures StrictTotalOn(less, t)
  {
  }
}
