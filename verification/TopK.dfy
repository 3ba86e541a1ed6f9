/** ORDER BY with SKIP and LIMIT: the bounded candidate heap against a stable sort of every
    row. */
module TopK {
  import opened Orders
  import opened Heaps
  import opened Sorting

  /** A row and its position in the input stream; the position breaks ties. */
  datatype Tagged<R> = Tagged(row: R, sequence: nat)

  function RowLe<R>(c: (R, R) -> int): (R, R) -> bool {
    (x, y) => c(x, y) <= 0
  }

  function TaggedLe<R>(c: (R, R) -> int): (Tagged<R>, Tagged<R>) -> bool {
    (x: Tagged<R>, y: Tagged<R>) => c(x.row, y.row) < 0 || (c(x.row, y.row) == 0 && x.sequence <= y.sequence)
  }

  /** A three-way comparison: a total preorder whose sign flips with its arguments. */
  ghost predicate Comparator<R(!new)>(c: (R, R) -> int) {
    && TotalPreorder(RowLe(c))
    && forall x, y {:trigger c(x, y)} :: c(x, y) < 0 <==> 0 < c(y, x)
  }

  lemma TaggedPreorder<R(!new)>(c: (R, R) -> int)
    requires Comparator(c)
    ensures TotalPreorder(TaggedLe(c))
  {
    var le := TaggedLe(c);
    forall x, y, z ensures (le(x, y) || le(y, x)) && (le(x, y) && le(y, z) ==> le(x, z)) {
      TaggedLaws(c, x, y, z);
    }
  }

  lemma TaggedLaws<R(!new)>(c: (R, R) -> int, x: Tagged<R>, y: Tagged<R>, z: Tagged<R>)
    requires Comparator(c)
    ensures TaggedLe(c)(x, y) || TaggedLe(c)(y, x)
    ensures TaggedLe(c)(x, y) && TaggedLe(c)(y, z) ==> TaggedLe(c)(x, z)
  {
    var le := RowLe(c);
    assert c(x.row, y.row) < 0 <==> 0 < c(y.row, x.row);
    assert c(y.row, x.row) < 0 <==> 0 < c(x.row, y.row);
    assert c(y.row, z.row) < 0 <==> 0 < c(z.row, y.row);
    assert c(x.row, z.row) < 0 <==> 0 < c(z.row, x.row);
    if le(x.row, y.row) && le(y.row, z.row) {
      Transitivity(le, x.row, y.row, z.row);
      if c(x.row, z.row) == 0 {
        // A tie at the ends forces ties in between.
        assert le(z.row, x.row);
        Transitivity(le, z.row, x.row, y.row);
        Transitivity(le, y.row, z.row, x.row);
      }
    }
  }

  function Tag<R>(rows: seq<R>, first: nat): (t: seq<Tagged<R>>)
    ensures |t| == |rows|
    ensures forall i :: 0 <= i < |rows| ==> t[i] == Tagged(rows[i], first + i)
  {
    seq(|rows|, i requires 0 <= i < |rows| => Tagged(rows[i], first + i))
  }

  function Untag<R>(t: seq<Tagged<R>>): (rows: seq<R>)
    ensures |rows| == |t|
    ensures forall i :: 0 <= i < |t| ==> rows[i] == t[i].row
  {
    seq(|t|, i requires 0 <= i < |t| => t[i].row)
  }

  /** The positions keep any two candidates from tying. */
  lemma TagsBreakTies<R(!new)>(c: (R, R) -> int, rows: seq<R>)
    requires Comparator(c)
    ensures AntisymmetricOn(TaggedLe(c), multiset(Tag(rows, 0)))
  {
    var le, t := TaggedLe(c), Tag(rows, 0);
    forall x, y | x in multiset(t) && y in multiset(t) && le(x, y) && le(y, x) ensures x == y {
      var i :| 0 <= i < |t| && t[i] == x;
      var j :| 0 <= j < |t| && t[j] == y;
      assert c(x.row, y.row) < 0 <==> 0 < c(y.row, x.row);
      assert i == x.sequence == y.sequence == j;
    }
  }

  lemma {:induction false} InsertTagged<R(!new)>(c: (R, R) -> int, x: Tagged<R>, s: seq<Tagged<R>>)
    requires forall i :: 0 <= i < |s| ==> x.sequence < s[i].sequence
    ensures Untag(Insert(TaggedLe(c), x, s)) == Insert(RowLe(c), x.row, Untag(s))
  {
    if s != [] {
      assert Untag(s)[1..] == Untag(s[1..]);
      InsertTagged(c, x, s[1..]);
      assert Untag(Insert(TaggedLe(c), x, s)) ==
             if TaggedLe(c)(x, s[0]) then [x.row] + Untag(s) else [s[0].row] + Untag(Insert(TaggedLe(c), x, s[1..]));
    }
  }

  /** Sorting rows tagged with their position is the stable sort of the rows. */
  lemma {:induction false} StableByPosition<R(!new)>(c: (R, R) -> int, rows: seq<R>, first: nat)
    ensures Untag(SortBy(TaggedLe(c), Tag(rows, first))) == SortBy(RowLe(c), rows)
  {
    if rows != [] {
      var t := Tag(rows, first);
      assert t[1..] == Tag(rows[1..], first + 1);
      StableByPosition(c, rows[1..], first + 1);
      var sorted := SortBy(TaggedLe(c), t[1..]);
      SortByElements(TaggedLe(c), t[1..]);
      forall i | 0 <= i < |sorted| ensures first < sorted[i].sequence {
        assert sorted[i] in multiset(t[1..]);
        assert sorted[i] in t[1..];
      }
      InsertTagged(c, t[0], sorted);
    }
  }

  /** The page that SKIP and LIMIT cut from an ordered result. */
  function Page<R>(rows: seq<R>, skip: nat, limit: nat): seq<R> {
    var rest := rows[Min(skip, |rows|)..];
    rest[..Min(limit, |rest|)]
  }

  /** Feed every item through the bounded heap. */
  method FillHeap<T(!new)>(le: (T, T) -> bool, items: seq<T>, limit: nat) returns (heap: seq<T>)
    requires TotalPreorder(le)
    ensures Best(le, multiset(heap), multiset(items), limit)
  {
    heap := [];
    ghost var seen: multiset<T> := multiset{};
    for n := 0 to |items|
      invariant IsHeap(Flip(le), heap) && |heap| <= limit
      invariant seen == multiset(items[..n])
      invariant Best(le, multiset(heap), seen, limit)
    {
      ghost var kept := multiset(heap);
      heap := PushBounded(le, heap, items[n], limit);
      BestStep(le, kept, seen, limit, items[n], multiset(heap));
      RangeGrows(items, 0, n);
      seen := seen + multiset{items[n]};
    }
    assert items[..|items|] == items;
  }

  /** Sort what the heap kept: the prefix of the full sort. */
  method CollectBest<T(!new)>(le: (T, T) -> bool, items: seq<T>, limit: nat) returns (best: seq<T>)
    requires TotalPreorder(le) && AntisymmetricOn(le, multiset(items))
    ensures best == SortBy(le, items)[..Min(limit, |items|)]
  {
    var heap := FillHeap(le, items, limit);
    best := SortBy(le, heap);
    SortBySorts(le, heap);
    SortByElements(le, heap);
    SortedSplit(le, best, items);
    assert |multiset(heap)| == |heap| && |multiset(items)| == |items|;
  }

  /** ORDER BY ... SKIP ... LIMIT through the candidate heap returns exactly the slice of
      the stably sorted rows. */
  method OrderedPage<R(!new)>(c: (R, R) -> int, rows: seq<R>, skip: nat, limit: nat) returns (page: seq<R>)
    requires Comparator(c)
    ensures page == Page(SortBy(RowLe(c), rows), skip, limit)
  {
    var candidateLimit := skip + limit;
    TaggedPreorder(c);
    TagsBreakTies(c, rows);
    var candidates := CollectBest(TaggedLe(c), Tag(rows, 0), candidateLimit);
    StableByPosition(c, rows, 0);
    var top := Untag(candidates);
    page := top[Min(skip, |top|)..];
    PageOfPrefix(SortBy(RowLe(c), rows), SortBy(TaggedLe(c), Tag(rows, 0)), candidates, skip, limit);
  }

  lemma PageOfPrefix<R>(sorted: seq<R>, tagged: seq<Tagged<R>>, candidates: seq<Tagged<R>>, skip: nat, limit: nat)
    requires Untag(tagged) == sorted && candidates == tagged[..Min(skip + limit, |tagged|)]
    ensures Untag(candidates)[Min(skip, |candidates|)..] == Page(sorted, skip, limit)
  {
    assert Untag(candidates) == sorted[..Min(skip + limit, |sorted|)];
  }
}
