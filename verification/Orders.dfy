/** Order theory shared by every ranking in the engine: comparator functions,
    sorted sequences and a reference stable sort. */
module Orders {

  /** Marker for the instances of the order laws that a proof asks for. */
  ghost predicate Instance<T>(x: T, y: T, z: T) { true }

  /** `le` relates every pair and is transitive: what a Go three-way comparator must
      provide before a sort or a heap can be trusted. */
  ghost predicate TotalPreorder<T(!new)>(le: (T, T) -> bool) {
    forall x, y, z {:trigger Instance(x, y, z)} ::
      (le(x, y) || le(y, x)) && (le(x, y) && le(y, z) ==> le(x, z))
  }

  ghost predicate Antisymmetric<T(!new)>(le: (T, T) -> bool) {
    forall x, y {:trigger Instance(x, y, x)} :: le(x, y) && le(y, x) ==> x == y
  }

  ghost predicate TotalOrder<T(!new)>(le: (T, T) -> bool) {
    TotalPreorder(le) && Antisymmetric(le)
  }

  /** No two different members of `m` tie. */
  ghost predicate AntisymmetricOn<T(!new)>(le: (T, T) -> bool, m: multiset<T>) {
    forall x, y {:trigger Instance(x, y, x)} :: x in m && y in m && le(x, y) && le(y, x) ==> x == y
  }

  lemma Totality<T(!new)>(le: (T, T) -> bool, x: T, y: T)
    requires TotalPreorder(le)
    ensures le(x, y) || le(y, x)
  {
    assert Instance(x, y, y);
  }

  lemma Transitivity<T(!new)>(le: (T, T) -> bool, x: T, y: T, z: T)
    requires TotalPreorder(le) && le(x, y) && le(y, z)
    ensures le(x, z)
  {
    assert Instance(x, y, z);
  }

  lemma Antisymmetry<T(!new)>(le: (T, T) -> bool, m: multiset<T>, x: T, y: T)
    requires AntisymmetricOn(le, m) && x in m && y in m && le(x, y) && le(y, x)
    ensures x == y
  {
    assert Instance(x, y, x);
  }

  ghost predicate Sorted<T>(le: (T, T) -> bool, s: seq<T>) {
    forall i, j :: 0 <= i < j < |s| ==> le(s[i], s[j])
  }

  ghost predicate AllAtLeast<T>(le: (T, T) -> bool, x: T, s: seq<T>) {
    forall i :: 0 <= i < |s| ==> le(x, s[i])
  }

  ghost predicate Distinct<T>(s: seq<T>) {
    forall i, j :: 0 <= i < j < |s| ==> s[i] != s[j]
  }

  /** Stable insertion sort: an element goes in front of the later elements it ties with. */
  function SortBy<T>(le: (T, T) -> bool, s: seq<T>): (r: seq<T>)
    ensures |r| == |s|
  {
    if s == [] then [] else Insert(le, s[0], SortBy(le, s[1..]))
  }

  function Insert<T>(le: (T, T) -> bool, x: T, s: seq<T>): (r: seq<T>)
    ensures |r| == |s| + 1
  {
    if s == [] then [x]
    else if le(x, s[0]) then [x] + s
    else [s[0]] + Insert(le, x, s[1..])
  }

  lemma {:induction false} InsertElements<T>(le: (T, T) -> bool, x: T, s: seq<T>)
    ensures multiset(Insert(le, x, s)) == multiset{x} + multiset(s)
  {
    if s != [] {
      InsertElements(le, x, s[1..]);
      assert s == [s[0]] + s[1..];
    }
  }

  lemma {:induction false} InsertBounded<T>(le: (T, T) -> bool, x: T, s: seq<T>, y: T)
    requires le(y, x) && AllAtLeast(le, y, s)
    ensures AllAtLeast(le, y, Insert(le, x, s))
  {
    if s != [] {
      InsertBounded(le, x, s[1..], y);
    }
  }

  lemma {:induction false} InsertSorted<T(!new)>(le: (T, T) -> bool, x: T, s: seq<T>)
    requires TotalPreorder(le) && Sorted(le, s)
    ensures Sorted(le, Insert(le, x, s))
  {
    if s != [] {
      Totality(le, x, s[0]);
      if le(x, s[0]) {
        forall j | 1 <= j < |s| ensures le(x, s[j]) {
          Transitivity(le, x, s[0], s[j]);
        }
      } else {
        InsertSorted(le, x, s[1..]);
        InsertBounded(le, x, s[1..], s[0]);
      }
    }
  }

  lemma {:induction false} SortBySorts<T(!new)>(le: (T, T) -> bool, s: seq<T>)
    requires TotalPreorder(le)
    ensures Sorted(le, SortBy(le, s))
  {
    if s != [] {
      SortBySorts(le, s[1..]);
      InsertSorted(le, s[0], SortBy(le, s[1..]));
    }
  }

  lemma {:induction false} SortByElements<T>(le: (T, T) -> bool, s: seq<T>)
    ensures multiset(SortBy(le, s)) == multiset(s)
  {
    if s != [] {
      SortByElements(le, s[1..]);
      InsertElements(le, s[0], SortBy(le, s[1..]));
      assert s == [s[0]] + s[1..];
    }
  }

  lemma OrderOn<T(!new)>(le: (T, T) -> bool, m: multiset<T>)
    requires TotalOrder(le)
    ensures AntisymmetricOn(le, m)
  {
    forall x, y | le(x, y) && le(y, x) ensures x == y {
      assert Instance(x, y, x);
    }
  }

  lemma TailElements<T>(s: seq<T>)
    requires s != []
    ensures multiset(s) == multiset{s[0]} + multiset(s[1..])
  {
    assert s == [s[0]] + s[1..];
  }

  /** Without ties there is only one sorted arrangement of a multiset. */
  lemma {:induction false} SortedUnique<T(!new)>(le: (T, T) -> bool, m: multiset<T>, a: seq<T>, b: seq<T>)
    requires TotalPreorder(le) && AntisymmetricOn(le, m) && multiset(a) <= m
    requires Sorted(le, a) && Sorted(le, b) && multiset(a) == multiset(b)
    ensures a == b
  {
    assert |a| == |multiset(a)| == |multiset(b)| == |b|;
    if a != [] {
      FirstIsLeast(le, a, b);
      FirstIsLeast(le, b, a);
      TailElements(a);
      TailElements(b);
      Antisymmetry(le, m, a[0], b[0]);
      SortedUnique(le, m, a[1..], b[1..]);
    }
  }

  lemma FirstIsLeast<T(!new)>(le: (T, T) -> bool, a: seq<T>, b: seq<T>)
    requires TotalPreorder(le) && Sorted(le, a) && a != [] && b != []
    requires multiset(a) == multiset(b)
    ensures le(a[0], b[0])
  {
    assert b[0] in multiset(a);
    var k :| 0 <= k < |a| && a[k] == b[0];
    Totality(le, a[0], a[0]);
  }

  /** A sorted arrangement under a total order is what the reference sort returns. */
  lemma SortedIsSortBy<T(!new)>(le: (T, T) -> bool, s: seq<T>, input: seq<T>)
    requires TotalPreorder(le) && AntisymmetricOn(le, multiset(input)) && Sorted(le, s) && multiset(s) == multiset(input)
    ensures s == SortBy(le, input)
  {
    SortBySorts(le, input);
    SortByElements(le, input);
    SortedUnique(le, multiset(input), s, SortBy(le, input));
  }

  ghost predicate AllBelow<T(!new)>(le: (T, T) -> bool, low: multiset<T>, high: multiset<T>) {
    forall x, y :: x in low && y in high ==> le(x, y)
  }

  lemma JoinSorted<T(!new)>(le: (T, T) -> bool, low: seq<T>, high: seq<T>)
    requires Sorted(le, low) && Sorted(le, high)
    requires AllBelow(le, multiset(low), multiset(high))
    ensures Sorted(le, low + high)
  {
    var whole := low + high;
    forall i, j | 0 <= i < j < |whole| ensures le(whole[i], whole[j]) {
      if i < |low| && j >= |low| {
        assert whole[i] in multiset(low);
        assert whole[j] in multiset(high);
      }
    }
  }

  /** Sorting the smaller part of a split gives the prefix of the full sort. */
  lemma SortedSplit<T(!new)>(le: (T, T) -> bool, low: seq<T>, all: seq<T>)
    requires TotalPreorder(le) && AntisymmetricOn(le, multiset(all)) && Sorted(le, low) && multiset(low) <= multiset(all)
    requires AllBelow(le, multiset(low), multiset(all) - multiset(low))
    ensures |low| <= |all| && low == SortBy(le, all)[..|low|]
  {
    var rest := SeqOf(multiset(all) - multiset(low));
    var high := SortBy(le, rest);
    SortBySorts(le, rest);
    SortByElements(le, rest);
    JoinSorted(le, low, high);
    var whole := low + high;
    assert multiset(whole) == multiset(low) + multiset(high);
    assert multiset(whole) == multiset(all);
    SortedIsSortBy(le, whole, all);
    assert whole[..|low|] == low;
  }

  ghost function SeqOf<T>(m: multiset<T>): (s: seq<T>)
    ensures multiset(s) == m
  {
    if m == multiset{} then []
    else
      var x :| x in m;
      [x] + SeqOf(m - multiset{x})
  }

  /** The elements of a set, each once, in whatever order they are met. */
  method Enumerate<T>(all: set<T>) returns (list: seq<T>)
    ensures multiset(list) == multiset(all)
  {
    list := [];
    var rest := all;
    while rest != {}
      invariant multiset(list) + multiset(rest) == multiset(all)
      decreases |rest|
    {
      var x :| x in rest;
      assert multiset(rest) == multiset{x} + multiset(rest - {x});
      list := list + [x];
      rest := rest - {x};
    }
  }
}
