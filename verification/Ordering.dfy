/** Sorted enumerations of finite sets, as Python's sorted() yields them. */
module Ordering {

  ghost predicate StrictTotal<T(!new)>(less: (T, T) -> bool) {
    && (forall x :: !less(x, x))
    && (forall x, y :: less(x, y) || x == y || less(y, x))
    && (forall x, y, z :: less(x, y) && less(y, z) ==> less(x, z))
  }

  ghost predicate Ascending<T>(less: (T, T) -> bool, xs: seq<T>) {
    forall i, j :: 0 <= i < j < |xs| ==> less(xs[i], xs[j])
  }

  lemma {:induction false} LeastExists<T(!new)>(less: (T, T) -> bool, s: set<T>) returns (least: T)
    requires StrictTotal(less) && s != {}
    ensures least in s && forall x :: x in s && x != least ==> less(least, x)
    decreases s
  {
    var candidate :| candidate in s;
    var rest := s - {candidate};
    if rest == {} {
      least := candidate;
      assert s == {candidate};
    } else {
      var best := LeastExists(less, rest);
      least := if less(candidate, best) then candidate else best;
      forall x | x in s && x != least ensures less(least, x) {
        if x != candidate {
          assert x in rest && (x == best || less(best, x));
        }
      }
    }
  }

  function Least<T(==,!new)>(less: (T, T) -> bool, s: set<T>): (least: T)
    requires StrictTotal(less) && s != {}
    ensures least in s && forall x :: x in s && x != least ==> less(least, x)
  {
    assert exists l :: l in s && forall x :: x in s && x != l ==> less(l, x) by {
      var l := LeastExists(less, s);
    }
    var l :| l in s && forall x :: x in s && x != l ==> less(l, x);
    l
  }

  /** The set's elements in ascending order. */
  function Sorted<T(==,!new)>(less: (T, T) -> bool, s: set<T>): (xs: seq<T>)
    requires StrictTotal(less)
    decreases s
  {
    if s == {} then []
    else
      var l := Least(less, s);
      [l] + Sorted(less, s - {l})
  }

  lemma {:induction false} SortedFacts<T(!new)>(less: (T, T) -> bool, s: set<T>)
    requires StrictTotal(less)
    ensures |Sorted(less, s)| == |s|
    ensures forall x :: x in Sorted(less, s) <==> x in s
    ensures Ascending(less, Sorted(less, s))
    decreases s
  {
    if s != {} {
      var l := Least(less, s);
      SortedFacts(less, s - {l});
      var rest := Sorted(less, s - {l});
      assert Sorted(less, s) == [l] + rest;
      assert forall i :: 0 <= i < |rest| ==> rest[i] in rest;
    }
  }

  /** There is only one ascending enumeration of a set. */
  lemma {:induction false} AscendingIsUnique<T(!new)>(less: (T, T) -> bool, a: seq<T>, b: seq<T>)
    requires StrictTotal(less)
    requires Ascending(less, a) && Ascending(less, b)
    requires forall x :: x in a <==> x in b
    ensures a == b
    decreases |a|
  {
    assert b != [] ==> b[0] in b;
    if a != [] {
      assert a[0] in b && b[0] in a;
      assert forall k :: 0 < k < |a| ==> less(a[0], a[k]);
      assert forall k :: 0 < k < |b| ==> less(b[0], b[k]);
      assert a[0] == b[0] by {
        var i :| 0 <= i < |b| && b[i] == a[0];
        var j :| 0 <= j < |a| && a[j] == b[0];
      }
      forall x ensures x in a[1..] <==> x in b[1..] {
        if x in a[1..] {
          var i :| 0 < i < |a| && a[i] == x;
          assert less(a[0], x);
          assert x in b;
          var j :| 0 <= j < |b| && b[j] == x;
          assert j != 0;
          assert b[1..][j - 1] == x;
        }
        if x in b[1..] {
          var i :| 0 < i < |b| && b[i] == x;
          assert less(b[0], x);
          assert x in a;
          var j :| 0 <= j < |a| && a[j] == x;
          assert j != 0;
          assert a[1..][j - 1] == x;
        }
      }
      AscendingIsUnique(less, a[1..], b[1..]);
      assert a == [a[0]] + a[1..] && b == [b[0]] + b[1..];
    }
  }

  predicate NatLess(x: nat, y: nat) {
    x < y
  }

  lemma NatLessIsStrictTotal()
    ensures StrictTotal(NatLess)
  {
  }

  /** Code-point order on strings. */
  predicate StringLess(a: string, b: string) {
    if b == [] then false
    else if a == [] then true
    else a[0] < b[0] || (a[0] == b[0] && StringLess(a[1..], b[1..]))
  }

  lemma {:induction false} StringLessTotal(a: string, b: string)
    ensures !StringLess(a, a)
    ensures StringLess(a, b) || a == b || StringLess(b, a)
    decreases |a|
  {
    if a != [] {
      StringLessTotal(a[1..], if b == [] then [] else b[1..]);
      if b != [] {
        assert a == [a[0]] + a[1..] && b == [b[0]] + b[1..];
      }
    }
  }

  lemma {:induction false} StringLessTransitive(a: string, b: string, c: string)
    requires StringLess(a, b) && StringLess(b, c)
    ensures StringLess(a, c)
    decreases |a|
  {
    if a != [] && a[0] == b[0] && b[0] == c[0] {
      StringLessTransitive(a[1..], b[1..], c[1..]);
    }
  }

  lemma StringLessAsymmetric(a: string, b: string)
    requires StringLess(a, b)
    ensures !StringLess(b, a) && a != b
  {
    StringLessTotal(a, a);
    if StringLess(b, a) {
      StringLessTransitive(a, b, a);
    }
  }

  lemma StringLessIsStrictTotal()
    ensures StrictTotal(StringLess)
  {
    forall a: string, b: string
      ensures !StringLess(a, a)
      ensures StringLess(a, b) || a == b || StringLess(b, a)
    {
      StringLessTotal(a, b);
    }
    forall a: string, b: string, c: string | StringLess(a, b) && StringLess(b, c)
      ensures StringLess(a, c)
    {
      StringLessTransitive(a, b, c);
    }
  }

  /** sorted() on a set of strings. */
  function SortedStrings(s: set<string>): (xs: seq<string>)
  {
    StringLessIsStrictTotal();
    Sorted(StringLess, s)
  }

  lemma SortedStringsFacts(s: set<string>)
    ensures |SortedStrings(s)| == |s|
    ensures forall x :: x in SortedStrings(s) <==> x in s
    ensures Ascending(StringLess, SortedStrings(s))
  {
    StringLessIsStrictTotal();
    SortedFacts(StringLess, s);
  }

  /** sorted() on a set of slot numbers. */
  function SortedNats(s: set<nat>): (xs: seq<nat>)
  {
    NatLessIsStrictTotal();
    Sorted(NatLess, s)
  }

  lemma SortedNatsFacts(s: set<nat>)
    ensures |SortedNats(s)| == |s|
    ensures forall x :: x in SortedNats(s) <==> x in s
    ensures Ascending(NatLess, SortedNats(s))
  {
    NatLessIsStrictTotal();
    SortedFacts(NatLess, s);
  }

  /** The numbers 1..n in order. */
  function Interval(n: nat): (xs: seq<nat>)
    ensures |xs| == n && forall i :: 0 <= i < n ==> xs[i] == i + 1
  {
    if n == 0 then [] else Interval(n - 1) + [n]
  }

  lemma SortedInterval(s: set<nat>, n: nat)
    requires forall k: nat :: k in s <==> 1 <= k <= n
    ensures SortedNats(s) == Interval(n)
  {
    SortedNatsFacts(s);
    NatLessIsStrictTotal();
    forall x: nat ensures x in SortedNats(s) <==> x in Interval(n) {
      assert 1 <= x <= n ==> Interval(n)[x - 1] == x;
    }
    AscendingIsUnique(NatLess, SortedNats(s), Interval(n));
  }
}
