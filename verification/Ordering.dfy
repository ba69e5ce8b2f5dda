/** Python's string order and the sorted listings that the index files are made of. */
module Ordering {

  /** `a < b` on strings: the first differing character decides, a proper prefix is smaller. */
  predicate Below(a: string, b: string) {
    b != [] && (a == [] || a[0] < b[0] || (a[0] == b[0] && Below(a[1..], b[1..])))
  }

  lemma {:induction false} BelowTotal(a: string, b: string)
    ensures Below(a, b) || a == b || Below(b, a)
  {
    if a != [] && b != [] && a[0] == b[0] {
      BelowTotal(a[1..], b[1..]);
      assert a == [a[0]] + a[1..] && b == [b[0]] + b[1..];
    }
  }

  lemma {:induction false} BelowAsymmetric(a: string, b: string)
    ensures !(Below(a, b) && Below(b, a))
  {
    if a != [] && b != [] && a[0] == b[0] {
      BelowAsymmetric(a[1..], b[1..]);
    }
  }

  lemma {:induction false} BelowTransitive(a: string, b: string, c: string)
    requires Below(a, b) && Below(b, c)
    ensures Below(a, c)
  {
    if a != [] && a[0] == b[0] == c[0] {
      BelowTransitive(a[1..], b[1..], c[1..]);
    }
  }

  ghost predicate Increasing(xs: seq<string>) {
    forall i, j | 0 <= i < j < |xs| :: Below(xs[i], xs[j])
  }

  ghost predicate NoDuplicates<T>(xs: seq<T>) {
    forall i, j | 0 <= i < j < |xs| :: xs[i] != xs[j]
  }

  predicate IsLeast(m: string, s: set<string>) {
    m in s && forall x | x in s :: x == m || Below(m, x)
  }

  lemma LeastExists(s: set<string>)
    requires s != {}
    ensures exists m :: IsLeast(m, s)
  {
    var x :| x in s;
    if s == {x} {
      assert IsLeast(x, s);
    } else {
      LeastExists(s - {x});
      var m :| IsLeast(m, s - {x});
      BelowTotal(x, m);
      if Below(x, m) {
        forall y | y in s ensures y == x || Below(x, y) {
          if y != x && y != m { BelowTransitive(x, m, y); }
        }
        assert IsLeast(x, s);
      } else {
        assert IsLeast(m, s);
      }
    }
  }

  lemma LeastUnique(m: string, n: string, s: set<string>)
    requires IsLeast(m, s) && IsLeast(n, s)
    ensures m == n
  {
    BelowAsymmetric(m, n);
  }

  function Least(s: set<string>): (m: string)
    requires s != {}
    ensures m in s
  {
    LeastExists(s);
    assert forall m, n | IsLeast(m, s) && IsLeast(n, s) :: m == n by {
      forall m, n | IsLeast(m, s) && IsLeast(n, s) ensures m == n { LeastUnique(m, n, s); }
    }
    var m :| IsLeast(m, s);
    m
  }

  /** `sorted(s)` of a set of strings. */
  function Sorted(s: set<string>): seq<string>
    decreases |s|
  {
    if s == {} then []
    else
      var m := Least(s);
      [m] + Sorted(s - {m})
  }

  lemma LeastIsLeast(s: set<string>)
    requires s != {}
    ensures IsLeast(Least(s), s)
  {
    LeastExists(s);
  }

  lemma {:induction false} SortedListing(s: set<string>)
    ensures forall x :: x in Sorted(s) <==> x in s
    ensures |Sorted(s)| == |s|
    ensures Increasing(Sorted(s))
    decreases |s|
  {
    if s != {} {
      LeastIsLeast(s);
      var m := Least(s);
      SortedListing(s - {m});
      LeastFirst(m, Sorted(s - {m}), s);
      assert Sorted(s) == [m] + Sorted(s - {m});
    }
  }

  /** The sorted listing of a set, without duplicates. */
  ghost predicate Enumerates(xs: seq<string>, s: iset<string>) {
    Increasing(xs) && forall x :: x in xs <==> x in s
  }

  lemma SortedEnumerates(xs: set<string>, s: iset<string>)
    requires forall x :: x in xs <==> x in s
    ensures Enumerates(Sorted(xs), s)
  {
    SortedListing(xs);
  }

  lemma LeastFirst(m: string, rest: seq<string>, s: set<string>)
    requires IsLeast(m, s) && Increasing(rest) && |rest| == |s - {m}|
    requires forall x :: x in rest <==> x in s - {m}
    ensures Increasing([m] + rest) && |[m] + rest| == |s|
    ensures forall x :: x in [m] + rest <==> x in s
  {
    var r := [m] + rest;
    forall i, j | 0 <= i < j < |r| ensures Below(r[i], r[j]) {
      assert r[j] == rest[j - 1];
      assert rest[j - 1] in s - {m};
    }
  }

  /** A strictly increasing listing is determined by its elements, so a sorted list of
      records with unique keys carries no more than the keyed records themselves. */
  lemma {:induction false} IncreasingUnique(xs: seq<string>, ys: seq<string>)
    requires Increasing(xs) && Increasing(ys)
    requires forall x :: x in xs <==> x in ys
    ensures xs == ys
  {
    assert xs != [] ==> xs[0] in ys;
    assert ys != [] ==> ys[0] in xs;
    if xs != [] {
      BelowAsymmetric(xs[0], ys[0]);
      forall x ensures x in xs[1..] <==> x in ys[1..] {
        FirstNotInRest(xs);
        FirstNotInRest(ys);
        assert x in xs <==> x == xs[0] || x in xs[1..];
        assert x in ys <==> x == ys[0] || x in ys[1..];
      }
      IncreasingUnique(xs[1..], ys[1..]);
      assert xs == [xs[0]] + xs[1..] && ys == [ys[0]] + ys[1..];
    }
  }

  lemma FirstNotInRest(xs: seq<string>)
    requires xs != [] && Increasing(xs)
    ensures xs[0] !in xs[1..]
  {
    forall k | 1 <= k < |xs| ensures xs[k] != xs[0] {
      BelowAsymmetric(xs[0], xs[k]);
    }
  }

  /** `sorted(xs, key=...)`: a stable insertion sort. */
  function SortBy<T>(xs: seq<T>, key: T -> string): seq<T> {
    if xs == [] then [] else InsertBy(xs[0], SortBy(xs[1..], key), key)
  }

  function InsertBy<T>(x: T, xs: seq<T>, key: T -> string): seq<T> {
    if xs == [] || !Below(key(xs[0]), key(x)) then [x] + xs
    else [xs[0]] + InsertBy(x, xs[1..], key)
  }

  function Itself(x: string): string { x }

  /** `list.sort()` of a list of strings. */
  function Sort(xs: seq<string>): seq<string> {
    SortBy(xs, Itself)
  }

  function Insert(x: string, xs: seq<string>): seq<string> {
    InsertBy(x, xs, Itself)
  }

  lemma {:induction false} InsertByElements<T>(x: T, xs: seq<T>, key: T -> string)
    ensures multiset(InsertBy(x, xs, key)) == multiset(xs) + multiset{x}
  {
    if xs != [] && Below(key(xs[0]), key(x)) {
      InsertByElements(x, xs[1..], key);
      assert xs == [xs[0]] + xs[1..];
    }
  }

  lemma {:induction false} SortByElements<T>(xs: seq<T>, key: T -> string)
    ensures multiset(SortBy(xs, key)) == multiset(xs)
  {
    if xs != [] {
      SortByElements(xs[1..], key);
      InsertByElements(xs[0], SortBy(xs[1..], key), key);
      assert xs == [xs[0]] + xs[1..];
    }
  }

  lemma InsertElements(x: string, xs: seq<string>)
    ensures multiset(Insert(x, xs)) == multiset(xs) + multiset{x}
  {
    InsertByElements(x, xs, Itself);
  }

  lemma SortElements(xs: seq<string>)
    ensures multiset(Sort(xs)) == multiset(xs)
  {
    SortByElements(xs, Itself);
  }

  lemma {:induction false} InsertIncreasing(x: string, xs: seq<string>)
    requires Increasing(xs) && x !in xs
    ensures Increasing(Insert(x, xs))
  {
    if xs == [] {
    } else if !Below(xs[0], x) {
      BelowTotal(x, xs[0]);
      forall k | 0 <= k < |xs| ensures Below(x, xs[k]) {
        if k > 0 { BelowTransitive(x, xs[0], xs[k]); }
      }
    } else {
      InsertIncreasing(x, xs[1..]);
      var rest := Insert(x, xs[1..]);
      InsertElements(x, xs[1..]);
      forall k | 0 <= k < |rest| ensures Below(xs[0], rest[k]) {
        assert rest[k] in multiset(rest);
        if rest[k] != x { assert rest[k] in multiset(xs[1..]); }
      }
    }
  }

  /** Sorting a list without duplicates gives the sorted listing of its elements. */
  lemma {:induction false} SortIsSorted(xs: seq<string>)
    requires NoDuplicates(xs)
    ensures Sort(xs) == Sorted(set x | x in xs)
  {
    SortIncreasing(xs);
    SortElements(xs);
    var s := set x | x in xs;
    SortedListing(s);
    forall x ensures x in Sort(xs) <==> x in Sorted(s) {
      assert x in Sort(xs) <==> x in multiset(Sort(xs));
      assert x in xs <==> x in multiset(xs);
    }
    IncreasingUnique(Sort(xs), Sorted(s));
  }

  lemma {:induction false} SortIncreasing(xs: seq<string>)
    requires NoDuplicates(xs)
    ensures Increasing(Sort(xs))
  {
    if xs != [] {
      SortIncreasing(xs[1..]);
      var rest := Sort(xs[1..]);
      SortElements(xs[1..]);
      assert xs[0] !in rest by {
        assert xs[0] in rest <==> xs[0] in multiset(rest);
        assert xs[0] in xs[1..] <==> xs[0] in multiset(xs[1..]);
      }
      InsertIncreasing(xs[0], rest);
    }
  }
}
