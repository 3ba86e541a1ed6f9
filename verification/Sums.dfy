/** Sums of multisets over sequences: what a nested loop collects, regardless of order. */
module Sums {

  import opened Orders

  function Sum<A, B>(f: A -> multiset<B>, s: seq<A>): multiset<B> {
    if s == [] then multiset{} else f(s[0]) + Sum(f, s[1..])
  }

  lemma {:induction false} SumConcat<A, B>(f: A -> multiset<B>, s: seq<A>, t: seq<A>)
    ensures Sum(f, s + t) == Sum(f, s) + Sum(f, t)
  {
    if s == [] {
      assert s + t == t;
    } else {
      SumConcat(f, s[1..], t);
      assert (s + t)[1..] == s[1..] + t;
    }
  }

  lemma SumSnoc<A, B>(f: A -> multiset<B>, s: seq<A>, n: nat)
    requires n < |s|
    ensures Sum(f, s[..n + 1]) == Sum(f, s[..n]) + f(s[n])
  {
    assert s[..n + 1] == s[..n] + [s[n]];
    SumConcat(f, s[..n], [s[n]]);
  }

  lemma SumCons<A, B>(f: A -> multiset<B>, x: A, s: seq<A>)
    ensures Sum(f, [x] + s) == f(x) + Sum(f, s)
  {
    assert ([x] + s)[1..] == s;
  }

  lemma SumMiddle<A, B>(f: A -> multiset<B>, a: seq<A>, x: A, b: seq<A>)
    ensures Sum(f, a + ([x] + b)) == f(x) + Sum(f, a + b)
  {
    SumConcat(f, a, [x] + b);
    SumCons(f, x, b);
    SumConcat(f, a, b);
  }

  /** Take one occurrence out of a sequence. */
  lemma TakeOut<A, B>(f: A -> multiset<B>, t: seq<A>, x: A) returns (rest: seq<A>)
    requires x in t
    ensures multiset(t) == multiset{x} + multiset(rest) && |rest| < |t|
    ensures Sum(f, t) == f(x) + Sum(f, rest)
  {
    var i :| 0 <= i < |t| && t[i] == x;
    var a, b := t[..i], t[i + 1..];
    assert t == a + ([x] + b);
    SumMiddle(f, a, x, b);
    rest := a + b;
  }

  lemma CancelOne<A>(x: A, a: multiset<A>, b: multiset<A>)
    requires multiset{x} + a == multiset{x} + b
    ensures a == b
  {
    assert a == multiset{x} + a - multiset{x} && b == multiset{x} + b - multiset{x};
  }

  /** The order of summation does not matter. */
  lemma {:induction false} SumPermutes<A, B>(f: A -> multiset<B>, s: seq<A>, t: seq<A>)
    requires multiset(s) == multiset(t)
    ensures Sum(f, s) == Sum(f, t)
    decreases |s|
  {
    if s == [] {
      assert |multiset(t)| == 0;
    } else {
      TailElements(s);
      assert s[0] in multiset(t);
      var rest := TakeOut(f, t, s[0]);
      CancelOne(s[0], multiset(s[1..]), multiset(rest));
      SumPermutes(f, s[1..], rest);
    }
  }

  lemma {:induction false} SumExt<A, B>(f: A -> multiset<B>, g: A -> multiset<B>, s: seq<A>)
    requires forall i :: 0 <= i < |s| ==> f(s[i]) == g(s[i])
    ensures Sum(f, s) == Sum(g, s)
  {
    if s != [] { SumExt(f, g, s[1..]); }
  }

  lemma {:induction false} SumAdd<A(!new), B>(f: A -> multiset<B>, g: A -> multiset<B>, h: A -> multiset<B>, s: seq<A>)
    requires forall x :: h(x) == f(x) + g(x)
    ensures Sum(h, s) == Sum(f, s) + Sum(g, s)
  {
    if s != [] { SumAdd(f, g, h, s[1..]); }
  }

  lemma {:induction false} SumOfNone<A, B>(f: A -> multiset<B>, s: seq<A>)
    requires forall i :: 0 <= i < |s| ==> f(s[i]) == multiset{}
    ensures Sum(f, s) == multiset{}
  {
    if s != [] { SumOfNone(f, s[1..]); }
  }

  function Without<A(==, !new)>(s: seq<A>, x: A): (r: seq<A>)
    ensures forall y :: y in r <==> y in s && y != x
  {
    if s == [] then [] else (if s[0] == x then [] else [s[0]]) + Without(s[1..], x)
  }

  lemma {:induction false} WithoutDistinct<A(!new)>(s: seq<A>, x: A)
    requires Distinct(s)
    ensures Distinct(Without(s, x))
    ensures x in s ==> multiset(s) == multiset(Without(s, x)) + multiset{x}
    ensures x !in s ==> Without(s, x) == s
  {
    if s != [] {
      HeadIsApart(s);
      WithoutDistinct(s[1..], x);
      TailElements(s);
      if s[0] != x {
        ConsDistinct(s[0], Without(s[1..], x));
        TailElements([s[0]] + Without(s[1..], x));
      } else {
        assert Without(s, x) == Without(s[1..], x);
      }
    }
  }

  lemma ConsDistinct<A>(x: A, r: seq<A>)
    requires Distinct(r) && x !in r
    ensures Distinct([x] + r)
  {
  }

  /** Two duplicate-free lists with the same contributing elements have the same sum. */
  lemma {:induction false} SumSupport<A(!new), B>(f: A -> multiset<B>, s: seq<A>, t: seq<A>)
    requires Distinct(s) && Distinct(t) && forall x :: f(x) != multiset{} ==> (x in s <==> x in t)
    ensures Sum(f, s) == Sum(f, t)
    decreases |s|
  {
    if s == [] {
      forall i | 0 <= i < |t| ensures f(t[i]) == multiset{} { assert t[i] in t; }
      SumOfNone(f, t);
    } else {
      var x, rest := s[0], s[1..];
      var t' := Without(t, x);
      WithoutDistinct(t, x);
      HeadIsApart(s);
      forall y | f(y) != multiset{} ensures y in rest <==> y in t' { }
      SumSupport(f, rest, t');
      SumWithout(f, t, x);
    }
  }

  lemma HeadIsApart<A(!new)>(s: seq<A>)
    requires s != [] && Distinct(s)
    ensures Distinct(s[1..]) && forall y :: y in s[1..] <==> y in s && y != s[0]
  {
    assert s == [s[0]] + s[1..];
    assert forall i :: 1 <= i < |s| ==> s[i] == s[1..][i - 1];
  }

  lemma SumWithout<A(!new), B>(f: A -> multiset<B>, t: seq<A>, x: A)
    requires Distinct(t) && (f(x) != multiset{} ==> x in t)
    ensures Sum(f, t) == f(x) + Sum(f, Without(t, x))
  {
    var t' := Without(t, x);
    WithoutDistinct(t, x);
    if x in t {
      assert multiset(t) == multiset([x] + t');
      SumPermutes(f, t, [x] + t');
      SumCons(f, x, t');
    }
  }

  /** The inner sums of a double sum. */
  function Inner<A, B, C>(f: (A, B) -> multiset<C>, t: seq<B>): A -> multiset<C> { x => Sum(Row(f, x), t) }

  function Row<A, B, C>(f: (A, B) -> multiset<C>, x: A): B -> multiset<C> { y => f(x, y) }

  function Transposed<A, B, C>(f: (A, B) -> multiset<C>): (B, A) -> multiset<C> { (y, x) => f(x, y) }

  /** Two nested loops can be exchanged. */
  lemma {:induction false} SumSwap<A(!new), B(!new), C>(f: (A, B) -> multiset<C>, s: seq<A>, t: seq<B>)
    ensures Sum(Inner(f, t), s) == Sum(Inner(Transposed(f), s), t)
  {
    if s == [] {
      SumOfNone(Inner(Transposed(f), s), t);
    } else {
      SumSwap(f, s[1..], t);
      SumAdd(Row(f, s[0]), Inner(Transposed(f), s[1..]), Inner(Transposed(f), s), t);
    }
  }

  /** A sum over what another sum collected. */
  ghost function Chain<A, B, C>(f: A -> multiset<B>, h: B -> multiset<C>): A -> multiset<C> {
    x => Sum(h, SeqOf(f(x)))
  }

  lemma {:induction false} SumChain<A, B, C>(f: A -> multiset<B>, h: B -> multiset<C>, s: seq<A>, t: seq<B>)
    requires multiset(t) == Sum(f, s)
    ensures Sum(h, t) == Sum(Chain(f, h), s)
    decreases |s|
  {
    if s == [] {
      assert |multiset(t)| == 0;
    } else {
      var a, b := SeqOf(f(s[0])), SeqOf(Sum(f, s[1..]));
      assert multiset(t) == multiset(a + b);
      SumPermutes(h, t, a + b);
      SumConcat(h, a, b);
      SumChain(f, h, s[1..], b);
    }
  }

  /** The sequence lists the members of the set, once each. */
  ghost predicate Listing<T(!new)>(s: seq<T>, all: set<T>) {
    Distinct(s) && forall x :: x in s <==> x in all
  }

  lemma SeqOfListing<T(!new)>(all: set<T>)
    ensures Listing(SeqOf(multiset(all)), all)
  {
    ListingOf(SeqOf(multiset(all)), all);
  }

  lemma Twice<T>(s: seq<T>, i: nat, j: nat)
    requires i < j < |s| && s[i] == s[j]
    ensures multiset(s)[s[i]] >= 2
  {
    assert s == s[..i] + [s[i]] + s[i + 1..j] + [s[j]] + s[j + 1..];
  }

  lemma ListingDistinct<T(!new)>(s: seq<T>, all: set<T>)
    requires multiset(s) == multiset(all)
    ensures Distinct(s)
  {
    forall i, j | 0 <= i < j < |s| ensures s[i] != s[j] {
      if s[i] == s[j] { Twice(s, i, j); }
    }
  }

  lemma ListingOf<T(!new)>(s: seq<T>, all: set<T>)
    requires multiset(s) == multiset(all)
    ensures Listing(s, all)
  {
    ListingDistinct(s, all);
    forall x ensures x in s <==> x in all { assert x in s <==> x in multiset(s); }
  }

  lemma SubsetOfSameSize<T>(a: set<T>, b: set<T>)
    requires a <= b && |a| >= |b|
    ensures a == b
  {
    assert b == a + (b - a);
  }

  /** How often an element comes out of a sum to which each summand gives it once or not at all. */
  lemma {:induction false} SumCounts<A(!new), B>(f: A -> multiset<B>, s: seq<A>, b: B, givers: set<A>)
    requires Distinct(s) && (forall x :: x in s ==> f(x)[b] == if x in givers then 1 else 0) && forall x :: x in givers ==> x in s
    ensures Sum(f, s)[b] == |givers|
    decreases |s|
  {
    if s != [] {
      HeadIsApart(s);
      assert s[0] in s;
      SumCounts(f, s[1..], b, givers - {s[0]});
      if s[0] in givers { assert givers == (givers - {s[0]}) + {s[0]}; } else { assert givers == givers - {s[0]}; }
    } else {
      assert givers == {};
    }
  }

  lemma {:induction false} InSum<A, B>(f: A -> multiset<B>, s: seq<A>, b: B)
    ensures b in Sum(f, s) <==> exists i :: 0 <= i < |s| && b in f(s[i])
    decreases |s|
  {
    if s != [] {
      InSum(f, s[1..], b);
      if i :| 0 <= i < |s[1..]| && b in f(s[1..][i]) { assert s[i + 1] == s[1..][i]; }
      if i :| 0 <= i < |s| && b in f(s[i]) {
        if i > 0 { assert s[1..][i - 1] == s[i]; }
      }
    }
  }

  lemma InSumAt<A, B>(f: A -> multiset<B>, s: seq<A>, i: nat, b: B)
    requires i < |s| && b in f(s[i])
    ensures b in Sum(f, s)
  {
    InSum(f, s, b);
  }
}
