/** Sorting by a name in JavaScript's string order, as both the archive and the lib/ digest do. */
module Sorting {
  /** The first differing code unit decides, a prefix comes first. */
  predicate Before(a: string, b: string) {
    b != [] && (a == [] || a[0] < b[0] || (a[0] == b[0] && Before(a[1..], b[1..])))
  }

  function Insert<T>(x: T, sorted: seq<T>, name: T -> string): seq<T> {
    if sorted == [] || Before(name(x), name(sorted[0])) then [x] + sorted else [sorted[0]] + Insert(x, sorted[1..], name)
  }

  function SortBy<T>(xs: seq<T>, name: T -> string): seq<T> {
    if xs == [] then [] else Insert(xs[|xs| - 1], SortBy(xs[..|xs| - 1], name), name)
  }

  predicate AscendingBy<T>(xs: seq<T>, name: T -> string) {
    forall i, j :: 0 <= i < j < |xs| ==> Before(name(xs[i]), name(xs[j]))
  }

  predicate DistinctBy<T>(xs: seq<T>, name: T -> string) {
    forall i, j :: 0 <= i < j < |xs| ==> name(xs[i]) != name(xs[j])
  }

  lemma {:induction false} BeforeIsTotal(a: string, b: string)
    ensures a == b || Before(a, b) || Before(b, a)
    ensures !(Before(a, b) && Before(b, a)) && !Before(a, a)
    decreases |a| + |b|
  {
    if a != [] { BeforeIrreflexive(a[1..]); }
    if a != [] && b != [] {
      BeforeIsTotal(a[1..], b[1..]);
      if a[0] == b[0] && a[1..] == b[1..] { assert a == [a[0]] + a[1..] == b; }
    }
  }

  lemma {:induction false} BeforeIrreflexive(a: string)
    ensures !Before(a, a)
  {
    if a != [] { BeforeIrreflexive(a[1..]); }
  }

  lemma {:induction false} BeforeIsTransitive(a: string, b: string, c: string)
    requires Before(a, b) && Before(b, c)
    ensures Before(a, c)
  {
    if a != [] && a[0] == b[0] && b[0] == c[0] { BeforeIsTransitive(a[1..], b[1..], c[1..]); }
  }

  lemma {:induction false} InsertAdds<T>(x: T, sorted: seq<T>, name: T -> string)
    ensures multiset(Insert(x, sorted, name)) == multiset(sorted) + multiset{x}
  {
    if sorted != [] && !Before(name(x), name(sorted[0])) {
      InsertAdds(x, sorted[1..], name);
      assert sorted == [sorted[0]] + sorted[1..];
    }
  }

  /** Sorting rearranges. */
  lemma {:induction false} SortKeeps<T>(xs: seq<T>, name: T -> string)
    ensures multiset(SortBy(xs, name)) == multiset(xs)
  {
    if xs != [] {
      var last := |xs| - 1;
      SortKeeps(xs[..last], name);
      assert xs == xs[..last] + [xs[last]];
      InsertAdds(xs[last], SortBy(xs[..last], name), name);
    }
  }

  lemma SortKeepsLength<T>(xs: seq<T>, name: T -> string)
    ensures |SortBy(xs, name)| == |xs|
  {
    SortKeeps(xs, name);
    SameLength(SortBy(xs, name), xs);
  }

  lemma {:induction false} InsertSorts<T>(x: T, sorted: seq<T>, name: T -> string)
    requires AscendingBy(sorted, name) && forall i :: 0 <= i < |sorted| ==> name(sorted[i]) != name(x)
    ensures AscendingBy(Insert(x, sorted, name), name)
  {
    if sorted == [] || Before(name(x), name(sorted[0])) {
      forall j | 0 <= j < |sorted| ensures Before(name(x), name(sorted[j])) {
        if j > 0 { BeforeIsTransitive(name(x), name(sorted[0]), name(sorted[j])); }
      }
      assert Insert(x, sorted, name) == [x] + sorted;
    } else {
      BeforeIsTotal(name(x), name(sorted[0]));
      InsertSorts(x, sorted[1..], name);
      var rest := Insert(x, sorted[1..], name);
      InsertAdds(x, sorted[1..], name);
      assert sorted == [sorted[0]] + sorted[1..];
      forall j | 0 <= j < |rest| ensures Before(name(sorted[0]), name(rest[j])) {
        assert rest[j] in multiset(rest);
        assert rest[j] == x || rest[j] in sorted[1..];
      }
    }
  }

  /** With no name twice, into strictly ascending order. */
  lemma {:induction false} SortSorts<T>(xs: seq<T>, name: T -> string)
    requires DistinctBy(xs, name)
    ensures AscendingBy(SortBy(xs, name), name)
  {
    if xs != [] {
      var last := |xs| - 1;
      var rest := SortBy(xs[..last], name);
      SortSorts(xs[..last], name);
      SortKeeps(xs[..last], name);
      forall i | 0 <= i < |rest| ensures name(rest[i]) != name(xs[last]) {
        assert rest[i] in multiset(xs[..last]);
      }
      InsertSorts(xs[last], rest, name);
    }
  }

  lemma SameFirst<T>(a: seq<T>, b: seq<T>, i: nat, j: nat, name: T -> string)
    requires AscendingBy(a, name) && AscendingBy(b, name) && i < |b| && j < |a| && b[i] == a[0] && a[j] == b[0]
    ensures a[0] == b[0]
  {
    assert j > 0 ==> Before(name(a[0]), name(a[j]));
    assert i > 0 ==> Before(name(b[0]), name(b[i]));
    BeforeIsTotal(name(a[0]), name(b[0]));
  }

  lemma Uncons<T>(a: seq<T>)
    requires a != []
    ensures multiset(a[1..]) == multiset(a) - multiset{a[0]}
  {
    assert a == [a[0]] + a[1..];
  }

  lemma FirstIsSame<T>(a: seq<T>, b: seq<T>, name: T -> string)
    requires a != [] && b != [] && AscendingBy(a, name) && AscendingBy(b, name) && multiset(a) == multiset(b)
    ensures a[0] == b[0]
  {
    assert a[0] in multiset(b) && b[0] in multiset(a);
    var i :| 0 <= i < |b| && b[i] == a[0];
    var j :| 0 <= j < |a| && a[j] == b[0];
    SameFirst(a, b, i, j, name);
  }

  lemma SameLength<T>(a: seq<T>, b: seq<T>)
    requires multiset(a) == multiset(b)
    ensures |a| == |b|
  {
    assert |multiset(a)| == |a| && |multiset(b)| == |b|;
  }

  /** A strictly ascending list is determined by what is in it. */
  lemma {:induction false} AscendingIsUnique<T>(a: seq<T>, b: seq<T>, name: T -> string)
    requires AscendingBy(a, name) && AscendingBy(b, name) && multiset(a) == multiset(b)
    ensures a == b
  {
    SameLength(a, b);
    if a != [] {
      FirstIsSame(a, b, name);
      Uncons(a);
      Uncons(b);
      AscendingIsUnique(a[1..], b[1..], name);
      assert a == [a[0]] + a[1..] && b == [b[0]] + b[1..];
    }
  }

  lemma DistinctIsOrderFree<T>(a: seq<T>, b: seq<T>, name: T -> string)
    requires DistinctBy(a, name) && multiset(a) == multiset(b)
    ensures DistinctBy(b, name)
  {
    forall i, j | 0 <= i < j < |b| ensures name(b[i]) != name(b[j]) {
      if name(b[i]) == name(b[j]) { TwoHaveOneName(a, b, i, j, name); }
    }
  }

  lemma TwoHaveOneName<T>(a: seq<T>, b: seq<T>, i: nat, j: nat, name: T -> string)
    requires multiset(a) == multiset(b) && i < j < |b| && name(b[i]) == name(b[j])
    ensures !DistinctBy(a, name)
  {
    assert b[i] in multiset(a) && b[j] in multiset(a);
    var k :| 0 <= k < |a| && a[k] == b[i];
    if l :| 0 <= l < |a| && a[l] == b[j] && l != k {
      assert name(a[k]) == name(a[l]);
    } else {
      assert b[i] == b[j];
      assert b == b[..i] + [b[i]] + b[i + 1..j] + [b[j]] + b[j + 1..];
      assert multiset(b)[b[i]] >= 2;
      OnceInDistinct(a, k);
    }
  }

  lemma OnceInDistinct<T>(a: seq<T>, k: nat)
    requires k < |a| && forall l :: 0 <= l < |a| && l != k ==> a[l] != a[k]
    ensures multiset(a)[a[k]] == 1
  {
    assert a == a[..k] + [a[k]] + a[k + 1..];
    assert a[k] !in a[..k] && a[k] !in a[k + 1..];
    assert multiset(a) == multiset(a[..k]) + multiset{a[k]} + multiset(a[k + 1..]);
  }

  /** Lists without repeated names that hold the same hold it equally often. */
  lemma SameSetSameMultiset<T>(a: seq<T>, b: seq<T>, name: T -> string)
    requires DistinctBy(a, name) && DistinctBy(b, name) && forall x :: x in a <==> x in b
    ensures multiset(a) == multiset(b)
  {
    forall x ensures multiset(a)[x] == multiset(b)[x] {
      HoldsOnce(a, name, x);
      HoldsOnce(b, name, x);
    }
  }

  lemma HoldsOnce<T>(a: seq<T>, name: T -> string, x: T)
    requires DistinctBy(a, name)
    ensures multiset(a)[x] == if x in a then 1 else 0
  {
    if x in a {
      var k :| 0 <= k < |a| && a[k] == x;
      OnceInDistinct(a, k);
    }
  }

  /** The order in which distinct names come in does not show. */
  lemma SortIsOrderFree<T>(a: seq<T>, b: seq<T>, name: T -> string)
    requires DistinctBy(a, name) && multiset(a) == multiset(b)
    ensures SortBy(a, name) == SortBy(b, name)
  {
    DistinctIsOrderFree(a, b, name);
    SortSorts(a, name);
    SortSorts(b, name);
    SortKeeps(a, name);
    SortKeeps(b, name);
    AscendingIsUnique(SortBy(a, name), SortBy(b, name), name);
  }
}
