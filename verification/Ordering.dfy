/** Value order: laws of the comparison, its budgeted form, and the order of result rows. */
module Ordering {

  import opened Numbers
  import opened Values
  import opened Orders
  import TopK
  import Sorting

  /** Where a query number stands on the extended number line. */
  function NumberPosition(v: Value): Position
    requires Rank(v) == 0
  {
    match v
    case Integer(n) => IntegerPosition(DOUBLE, n)
    case Floating(f) => FloatPosition(DOUBLE, f)
  }

  /** Mixed integers and floats compare exactly by position. */
  lemma NumbersCompareByPosition(x: Value, y: Value)
    requires Rank(x) == 0 == Rank(y)
    ensures CompareNumbers(x, y) == ComparePositions(NumberPosition(x), NumberPosition(y))
  {
    match (x, y)
    case (Integer(m), Integer(n)) => IntegersByPosition(DOUBLE, m, n);
    case (Floating(f), Floating(g)) => FloatsCompareByPosition(DOUBLE, f, g);
    case (Integer(m), Floating(g)) => IntegerFloatByPosition(DOUBLE, m, g);
    case (Floating(f), Integer(n)) => IntegerFloatByPosition(DOUBLE, n, f);
  }

  lemma IntegersByPosition(fmt: Format, m: int, n: int)
    requires fmt.least < 0
    ensures Sign(m - n) == ComparePositions(IntegerPosition(fmt, m), IntegerPosition(fmt, n))
  {
    if m < n {
      Scale(m, n, One(fmt));
    } else if n < m {
      Scale(n, m, One(fmt));
    }
  }

  lemma IntegerFloatByPosition(fmt: Format, n: Int64, f: Float)
    requires IsFormat(fmt) && Canonical(fmt, f)
    ensures (if f.NaN? then 1 else CompareIntegerFloat(fmt, n, f)) == ComparePositions(IntegerPosition(fmt, n), FloatPosition(fmt, f))
    ensures ComparePositions(FloatPosition(fmt, f), IntegerPosition(fmt, n)) == -ComparePositions(IntegerPosition(fmt, n), FloatPosition(fmt, f))
  {
    if !f.NaN? { ComparisonIsExact(fmt, n, f); }
  }

  lemma {:induction false} CompareOpposite(x: Value, y: Value)
    ensures Opposite(Compare(x, y), Compare(y, x))
    decreases x, 1, 0
  {
    if Rank(x) == Rank(y) {
      match x
      case Integer(_) => NumbersOpposite(x, y);
      case Floating(_) => NumbersOpposite(x, y);
      case Bool(_) =>
      case String(t) => TextOrdering(t, y.text, t);
      case NilBytes => ByteOrdering(); LexOpposite(CompareByte, ByteContents(x), ByteContents(y));
      case Bytes(_) => ByteOrdering(); LexOpposite(CompareByte, ByteContents(x), ByteContents(y));
      case NilVector => SingleOrdering(); LexOpposite(CompareSingle, VectorContents(x), VectorContents(y));
      case Vector(_) => SingleOrdering(); LexOpposite(CompareSingle, VectorContents(x), VectorContents(y));
      case List(_) => ItemsOpposite(x, y, 0);
      case Map(_) => FieldsOpposite(x, y, 0);
      case Null =>
    }
  }

  lemma NumbersOpposite(x: Value, y: Value)
    requires Rank(x) == 0 == Rank(y)
    ensures Opposite(CompareNumbers(x, y), CompareNumbers(y, x))
  {
    NumbersCompareByPosition(x, y);
    NumbersCompareByPosition(y, x);
  }

  lemma {:induction false} ItemsOpposite(x: Value, y: Value, i: nat)
    requires x.List? && y.List? && i <= |x.items| && i <= |y.items|
    ensures Opposite(CompareItems(x, y, i), CompareItems(y, x, i))
    decreases x, 0, |x.items| - i
  {
    if i < |x.items| && i < |y.items| {
      CompareOpposite(x.items[i], y.items[i]);
      ItemsOpposite(x, y, i + 1);
    }
  }

  lemma {:induction false} FieldsOpposite(x: Value, y: Value, i: nat)
    requires x.Map? && y.Map? && i <= |x.fields| && i <= |y.fields|
    ensures Opposite(CompareFields(x, y, i), CompareFields(y, x, i))
    decreases x, 0, |x.fields| - i
  {
    if i < |x.fields| && i < |y.fields| {
      var k, l := SortedKeys(x.fields.Keys)[i], SortedKeys(y.fields.Keys)[i];
      TextOrdering(k, l, k);
      CompareOpposite(x.fields[k], y.fields[l]);
      FieldsOpposite(x, y, i + 1);
    }
  }

  lemma {:induction false} CompareChained(x: Value, y: Value, z: Value)
    ensures Chained(Compare(x, y), Compare(y, z), Compare(x, z))
    decreases x, 1, 0
  {
    CompareOpposite(x, y);
    CompareOpposite(y, z);
    if Rank(x) == Rank(y) == Rank(z) {
      match x
      case Integer(_) => NumbersChained(x, y, z);
      case Floating(_) => NumbersChained(x, y, z);
      case Bool(_) =>
      case String(t) => TextOrdering(t, y.text, z.text);
      case NilBytes => ByteOrdering(); LexChained(CompareByte, ByteContents(x), ByteContents(y), ByteContents(z));
      case Bytes(_) => ByteOrdering(); LexChained(CompareByte, ByteContents(x), ByteContents(y), ByteContents(z));
      case NilVector => SingleOrdering(); LexChained(CompareSingle, VectorContents(x), VectorContents(y), VectorContents(z));
      case Vector(_) => SingleOrdering(); LexChained(CompareSingle, VectorContents(x), VectorContents(y), VectorContents(z));
      case List(_) => ItemsChained(x, y, z, 0);
      case Map(_) => FieldsChained(x, y, z, 0);
      case Null =>
    }
  }

  lemma NumbersChained(x: Value, y: Value, z: Value)
    requires Rank(x) == 0 && Rank(y) == 0 && Rank(z) == 0
    ensures Chained(CompareNumbers(x, y), CompareNumbers(y, z), CompareNumbers(x, z))
  {
    NumbersCompareByPosition(x, y);
    NumbersCompareByPosition(y, z);
    NumbersCompareByPosition(x, z);
  }

  lemma {:induction false} ItemsChained(x: Value, y: Value, z: Value, i: nat)
    requires x.List? && y.List? && z.List? && i <= |x.items| && i <= |y.items| && i <= |z.items|
    ensures Chained(CompareItems(x, y, i), CompareItems(y, z, i), CompareItems(x, z, i))
    decreases x, 0, |x.items| - i
  {
    ItemsOpposite(x, y, i);
    ItemsOpposite(y, z, i);
    if i < |x.items| && i < |y.items| && i < |z.items| {
      CompareChained(x.items[i], y.items[i], z.items[i]);
      CompareOpposite(x.items[i], y.items[i]);
      CompareOpposite(y.items[i], z.items[i]);
      ItemsChained(x, y, z, i + 1);
    }
  }

  lemma {:induction false} FieldsChained(x: Value, y: Value, z: Value, i: nat)
    requires x.Map? && y.Map? && z.Map? && i <= |x.fields| && i <= |y.fields| && i <= |z.fields|
    ensures Chained(CompareFields(x, y, i), CompareFields(y, z, i), CompareFields(x, z, i))
    decreases x, 0, |x.fields| - i
  {
    FieldsOpposite(x, y, i);
    FieldsOpposite(y, z, i);
    if i < |x.fields| && i < |y.fields| && i < |z.fields| {
      var k, l, m := SortedKeys(x.fields.Keys)[i], SortedKeys(y.fields.Keys)[i], SortedKeys(z.fields.Keys)[i];
      TextOrdering(k, l, m);
      TextOrdering(l, m, l);
      CompareChained(x.fields[k], y.fields[l], z.fields[m]);
      CompareOpposite(x.fields[k], y.fields[l]);
      CompareOpposite(y.fields[l], z.fields[m]);
      FieldsChained(x, y, z, i + 1);
    }
  }

  /** The order of values is a total preorder, nested lists and maps included. */
  lemma ValuesAreOrdered()
    ensures Values.Ordering(Compare)
    ensures TotalPreorder((x, y) => Compare(x, y) <= 0)
  {
    forall x, y ensures Opposite(Compare(x, y), Compare(y, x)) { CompareOpposite(x, y); }
    forall x, y, z ensures Chained(Compare(x, y), Compare(y, z), Compare(x, z)) { CompareChained(x, y, z); }
    var le := (x: Value, y: Value) => Compare(x, y) <= 0;
    forall x, y, z ensures (le(x, y) || le(y, x)) && (le(x, y) && le(y, z) ==> le(x, z)) {
      assert Opposite(Compare(x, y), Compare(y, x)) && Chained(Compare(x, y), Compare(y, z), Compare(x, z));
    }
  }

  // The budgeted comparison: work is charged chunk by chunk, the result is the same.

  const CHUNK: nat := 4096

  lemma {:induction false} LexSplit<T>(c: (T, T) -> int, x: seq<T>, y: seq<T>, n: nat)
    requires n <= |x| && n <= |y|
    ensures Lex(c, x, y) == if Lex(c, x[..n], y[..n]) != 0 then Lex(c, x[..n], y[..n]) else Lex(c, x[n..], y[n..])
    decreases n
  {
    if n > 0 {
      LexSplit(c, x[1..], y[1..], n - 1);
      assert x[1..][..n - 1] == x[..n][1..] && y[1..][..n - 1] == y[..n][1..];
      assert x[1..][n - 1..] == x[n..] && y[1..][n - 1..] == y[n..];
    } else {
      assert x[0..] == x && y[0..] == y;
    }
  }

  lemma LexStep<T>(c: (T, T) -> int, x: seq<T>, y: seq<T>, first: nat, end: nat)
    requires first <= end <= |x| && end <= |y|
    ensures var part := Lex(c, x[first..end], y[first..end]);
            Lex(c, x[first..], y[first..]) == if part != 0 then part else Lex(c, x[end..], y[end..])
  {
    LexSplit(c, x[first..], y[first..], end - first);
    var n := end - first;
    assert x[first..][..n] == x[first..end] && y[first..][..n] == y[first..end];
    assert x[first..][n..] == x[end..] && y[first..][n..] == y[end..];
  }

  /** Strings compare a chunk at a time. */
  method CompareTextChunked(x: Text, y: Text) returns (r: int)
    ensures r == CompareText(x, y)
  {
    var shared := Sorting.Min(|x|, |y|);
    var start := 0;
    assert x[0..] == x && y[0..] == y;
    while start < shared
      invariant start <= shared && CompareText(x, y) == CompareText(x[start..], y[start..])
    {
      var end := Sorting.Min(start + CHUNK, shared);
      LexStep(CompareByte, x, y, start, end);
      var part := CompareText(x[start..end], y[start..end]);
      if part != 0 {
        return part;
      }
      start := end;
    }
    return Sign(|x| - |y|);
  }

  /** Bytes and vector elements compare one at a time within a chunk. */
  method CompareElementsChunked<T>(c: (T, T) -> int, x: seq<T>, y: seq<T>) returns (r: int)
    ensures r == Lex(c, x, y)
  {
    var shared := Sorting.Min(|x|, |y|);
    var start := 0;
    assert x[0..] == x && y[0..] == y;
    while start < shared
      invariant start <= shared && Lex(c, x, y) == Lex(c, x[start..], y[start..])
    {
      var end := Sorting.Min(start + CHUNK, shared);
      for index := start to end
        invariant Lex(c, x, y) == Lex(c, x[index..], y[index..])
      {
        var comparison := c(x[index], y[index]);
        if comparison != 0 {
          return comparison;
        }
        assert x[index..][1..] == x[index + 1..] && y[index..][1..] == y[index + 1..];
      }
      start := end;
    }
    return Sign(|x| - |y|);
  }

  lemma TextOrder()
    ensures TotalOrder(TextLe)
  {
    forall x, y, z ensures (TextLe(x, y) || TextLe(y, x)) && (TextLe(x, y) && TextLe(y, z) ==> TextLe(x, z)) && (TextLe(x, y) && TextLe(y, x) ==> x == y) {
      TextOrdering(x, y, z);
    }
  }

  /** The sorted keys are sorted and complete. */
  lemma {:induction false} SortedKeysSorted(keys: set<Text>)
    ensures Sorted(TextLe, SortedKeys(keys)) && multiset(SortedKeys(keys)) == multiset(keys)
    decreases |keys|
  {
    if keys != {} {
      var k := SortedKeys(keys)[0];
      var rest := keys - {k};
      SortedKeysSorted(rest);
      var s := SortedKeys(rest);
      assert SortedKeys(keys) == [k] + s;
      forall i | 0 <= i < |s| ensures TextLe(k, s[i]) { assert s[i] in keys; }
      assert multiset(keys) == multiset{k} + multiset(rest);
    }
  }

  /** The keys of a map, met in any order, sorted. */
  method SortMapKeys(keys: set<Text>) returns (sorted: seq<Text>)
    ensures sorted == SortedKeys(keys)
  {
    var list := Enumerate(keys);
    sorted := SortBy(TextLe, list);
    SortedByAnyOrder(list, keys);
  }

  lemma SortedByAnyOrder(list: seq<Text>, keys: set<Text>)
    requires multiset(list) == multiset(keys)
    ensures SortBy(TextLe, list) == SortedKeys(keys)
  {
    TextOrder();
    OrderOn(TextLe, multiset(list));
    SortedKeysSorted(keys);
    SortedIsSortBy(TextLe, SortedKeys(keys), list);
  }

  /** The budgeted comparison returns the order of values. */
  method CompareBudgeted(x: Value, y: Value) returns (r: int)
    ensures r == Compare(x, y)
    decreases x, 2
  {
    if Rank(x) != Rank(y) {
      return Sign(Rank(x) - Rank(y));
    }
    match x
    case Integer(_) => r := CompareNumbers(x, y);
    case Floating(_) => r := CompareNumbers(x, y);
    case Bool(b) => r := if b == y.flag then 0 else if !b then -1 else 1;
    case String(t) => r := CompareTextChunked(t, y.text);
    case NilBytes => r := CompareElementsChunked(CompareByte, ByteContents(x), ByteContents(y));
    case Bytes(_) => r := CompareElementsChunked(CompareByte, ByteContents(x), ByteContents(y));
    case NilVector => r := CompareElementsChunked(CompareSingle, VectorContents(x), VectorContents(y));
    case Vector(_) => r := CompareElementsChunked(CompareSingle, VectorContents(x), VectorContents(y));
    case List(_) => r := CompareItemsBudgeted(x, y);
    case Map(_) => r := CompareFieldsBudgeted(x, y);
    case Null => r := 0;
  }

  method CompareItemsBudgeted(x: Value, y: Value) returns (r: int)
    requires x.List? && y.List?
    ensures r == CompareItems(x, y, 0)
    decreases x, 0
  {
    for i := 0 to Sorting.Min(|x.items|, |y.items|)
      invariant CompareItems(x, y, 0) == CompareItems(x, y, i)
    {
      r := CompareBudgeted(x.items[i], y.items[i]);
      if r != 0 {
        return;
      }
    }
    return Sign(|x.items| - |y.items|);
  }

  /** One key and its value. */
  method CompareFieldBudgeted(x: Value, y: Value, k: Text, l: Text) returns (r: int)
    requires x.Map? && y.Map? && k in x.fields && l in y.fields
    ensures r == if CompareText(k, l) != 0 then CompareText(k, l) else Compare(x.fields[k], y.fields[l])
    decreases x, 0
  {
    r := CompareTextChunked(k, l);
    if r == 0 {
      r := CompareBudgeted(x.fields[k], y.fields[l]);
    }
  }

  method CompareFieldsBudgeted(x: Value, y: Value) returns (r: int)
    requires x.Map? && y.Map?
    ensures r == CompareFields(x, y, 0)
    decreases x, 1
  {
    var k := SortMapKeys(x.fields.Keys);
    var l := SortMapKeys(y.fields.Keys);
    for i := 0 to Sorting.Min(|k|, |l|)
      invariant CompareFields(x, y, 0) == CompareFields(x, y, i)
    {
      r := CompareFieldBudgeted(x, y, k[i], l[i]);
      if r != 0 {
        return;
      }
    }
    return Sign(|k| - |l|);
  }

  // Result rows: ORDER BY clauses, then the lowest entity id bound in the row.

  datatype Binding = Unbound | Node(id: nat) | Edge(id: nat) | Scalar(value: Value)

  type Row = seq<Binding>

  datatype Clause<!R> = Clause(value: R -> Value, descending: bool)

  predicate HasID(binding: Binding) { binding.Node? || binding.Edge? }

  /** The lowest id among the first n slots; zero counts as none yet. */
  function Lowest(row: Row, n: nat): nat
    requires n <= |row|
  {
    if n == 0 then 0
    else
      var before := Lowest(row, n - 1);
      if HasID(row[n - 1]) && (before == 0 || row[n - 1].id < before) then row[n - 1].id else before
  }

  /** Entity ids start at one, so the scan finds the least id of the row, or zero without one. */
  lemma {:induction false} LowestIsLeast(row: Row, n: nat)
    requires n <= |row| && forall i :: 0 <= i < |row| && HasID(row[i]) ==> row[i].id > 0
    ensures forall i :: 0 <= i < n && HasID(row[i]) ==> 0 < Lowest(row, n) <= row[i].id
    ensures Lowest(row, n) > 0 ==> exists i :: 0 <= i < n && HasID(row[i]) && row[i].id == Lowest(row, n)
  {
    if n > 0 { LowestIsLeast(row, n - 1); }
  }

  function LowestID(): Row -> nat { (row: Row) => Lowest(row, |row|) }

  /** Clause by clause, then by an id of the row. */
  function CompareRows<R>(clauses: seq<Clause<R>>, id: R -> nat, x: R, y: R): int {
    if clauses == [] then Sign(id(x) - id(y))
    else
      var c := Compare(clauses[0].value(x), clauses[0].value(y));
      if c != 0 then (if clauses[0].descending then -c else c) else CompareRows(clauses[1..], id, x, y)
  }

  lemma {:induction false} RowsOpposite<R>(clauses: seq<Clause<R>>, id: R -> nat, x: R, y: R)
    ensures Opposite(CompareRows(clauses, id, x, y), CompareRows(clauses, id, y, x))
  {
    if clauses != [] {
      CompareOpposite(clauses[0].value(x), clauses[0].value(y));
      RowsOpposite(clauses[1..], id, x, y);
    }
  }

  lemma {:induction false} RowsChained<R>(clauses: seq<Clause<R>>, id: R -> nat, x: R, y: R, z: R)
    ensures Chained(CompareRows(clauses, id, x, y), CompareRows(clauses, id, y, z), CompareRows(clauses, id, x, z))
  {
    RowsOpposite(clauses, id, x, y);
    RowsOpposite(clauses, id, y, z);
    if clauses != [] {
      var u, v, w := clauses[0].value(x), clauses[0].value(y), clauses[0].value(z);
      CompareOpposite(u, v);
      CompareOpposite(v, w);
      CompareOpposite(u, w);
      CompareChained(u, v, w);
      CompareChained(w, v, u);
      RowsChained(clauses[1..], id, x, y, z);
    }
  }

  function RowComparison<R>(clauses: seq<Clause<R>>, id: R -> nat): (R, R) -> int {
    (x, y) => CompareRows(clauses, id, x, y)
  }

  /** The order of rows is a three-way comparison the sort and the heap can rely on. */
  lemma RowsAreOrdered<R(!new)>(clauses: seq<Clause<R>>, id: R -> nat)
    ensures TopK.Comparator(RowComparison(clauses, id))
  {
    var c := RowComparison(clauses, id);
    var le := TopK.RowLe(c);
    forall x, y, z ensures (le(x, y) || le(y, x)) && (le(x, y) && le(y, z) ==> le(x, z)) {
      RowsOpposite(clauses, id, x, y);
      RowsChained(clauses, id, x, y, z);
    }
    forall x, y ensures c(x, y) < 0 <==> 0 < c(y, x) { RowsOpposite(clauses, id, x, y); }
  }

  function Compared<R>(clause: Clause<R>, x: R, y: R): int { Compare(clause.value(x), clause.value(y)) }

  ghost predicate Tied<R>(clauses: seq<Clause<R>>, x: R, y: R, k: nat)
    requires k <= |clauses|
  {
    forall j :: 0 <= j < k ==> Compared(clauses[j], x, y) == 0
  }

  /** What ORDER BY asks of two rows in this order: at the first clause that tells them apart the
      values ascend, or descend if the clause says so; rows that no clause tells apart come by id. */
  ghost predicate InOrder<R>(clauses: seq<Clause<R>>, id: R -> nat, x: R, y: R) {
    && (forall k :: 0 <= k < |clauses| && Tied(clauses, x, y, k) && Compared(clauses[k], x, y) != 0 ==>
          if clauses[k].descending then Compared(clauses[k], x, y) > 0 else Compared(clauses[k], x, y) < 0)
    && (Tied(clauses, x, y, |clauses|) ==> id(x) <= id(y))
  }

  /** The first clause that tells two rows apart decides. */
  lemma {:induction false} ClauseDecides<R>(clauses: seq<Clause<R>>, id: R -> nat, x: R, y: R, k: nat)
    requires k <= |clauses| && Tied(clauses, x, y, k)
    ensures k == |clauses| ==> CompareRows(clauses, id, x, y) == Sign(id(x) - id(y))
    ensures k < |clauses| && Compared(clauses[k], x, y) != 0 ==>
              CompareRows(clauses, id, x, y) == if clauses[k].descending then -Compared(clauses[k], x, y) else Compared(clauses[k], x, y)
    decreases k
  {
    if k > 0 {
      var rest := clauses[1..];
      assert Compared(clauses[0], x, y) == 0;
      forall j | 0 <= j < k - 1 ensures Compared(rest[j], x, y) == 0 { assert rest[j] == clauses[j + 1]; }
      ClauseDecides(rest, id, x, y, k - 1);
    }
  }

  lemma RowsInOrder<R>(clauses: seq<Clause<R>>, id: R -> nat, x: R, y: R)
    requires CompareRows(clauses, id, x, y) <= 0
    ensures InOrder(clauses, id, x, y)
  {
    forall k | 0 <= k < |clauses| && Tied(clauses, x, y, k) && Compared(clauses[k], x, y) != 0
      ensures if clauses[k].descending then Compared(clauses[k], x, y) > 0 else Compared(clauses[k], x, y) < 0 {
      ClauseDecides(clauses, id, x, y, k);
    }
    if Tied(clauses, x, y, |clauses|) { ClauseDecides(clauses, id, x, y, |clauses|); }
  }

  /** All rows, in the order asked for. */
  ghost predicate Arranged<R>(clauses: seq<Clause<R>>, id: R -> nat, rows: seq<R>, sorted: seq<R>) {
    multiset(sorted) == multiset(rows) && forall i, j :: 0 <= i < j < |sorted| ==> InOrder(clauses, id, sorted[i], sorted[j])
  }

  lemma SortArranges<R(!new)>(clauses: seq<Clause<R>>, id: R -> nat, rows: seq<R>)
    ensures Arranged(clauses, id, rows, SortBy(TopK.RowLe(RowComparison(clauses, id)), rows))
  {
    var le := TopK.RowLe(RowComparison(clauses, id));
    var sorted := SortBy(le, rows);
    RowsAreOrdered(clauses, id);
    SortBySorts(le, rows);
    SortByElements(le, rows);
    forall i, j | 0 <= i < j < |sorted| ensures InOrder(clauses, id, sorted[i], sorted[j]) {
      assert le(sorted[i], sorted[j]);
      RowsInOrder(clauses, id, sorted[i], sorted[j]);
    }
  }

  /** The loop over the clauses. */
  method CompareOrderedRows(clauses: seq<Clause<Row>>, x: Row, y: Row) returns (r: int)
    ensures r == CompareRows(clauses, LowestID(), x, y)
  {
    for k := 0 to |clauses|
      invariant Tied(clauses, x, y, k)
    {
      ClauseDecides(clauses, LowestID(), x, y, k);
      r := CompareBudgeted(clauses[k].value(x), clauses[k].value(y));
      if clauses[k].descending {
        r := -r;
      }
      if r != 0 {
        return;
      }
    }
    ClauseDecides(clauses, LowestID(), x, y, |clauses|);
    r := Sign(LowestID()(x) - LowestID()(y));
  }

  /** ORDER BY, SKIP and LIMIT over rows: the page of the stable sort by clauses and lowest id. */
  method OrderedQuery(clauses: seq<Clause<Row>>, rows: seq<Row>, skip: nat, limit: nat) returns (page: seq<Row>)
    ensures page == TopK.Page(SortBy(TopK.RowLe(RowComparison(clauses, LowestID())), rows), skip, limit)
    ensures exists sorted :: Arranged(clauses, LowestID(), rows, sorted) && IsPage(sorted, skip, limit, page)
  {
    RowsAreOrdered(clauses, LowestID());
    page := TopK.OrderedPage(RowComparison(clauses, LowestID()), rows, skip, limit);
    SortArranges(clauses, LowestID(), rows);
    PageIs(SortBy(TopK.RowLe(RowComparison(clauses, LowestID())), rows), skip, limit);
  }

  /** The rows after the first `skip`, at most `limit` of them. */
  ghost predicate IsPage(sorted: seq<Row>, skip: nat, limit: nat, page: seq<Row>) {
    && |page| == (if |sorted| <= skip then 0 else if |sorted| - skip < limit then |sorted| - skip else limit)
    && forall i :: 0 <= i < |page| ==> page[i] == sorted[skip + i]
  }

  lemma PageIs(sorted: seq<Row>, skip: nat, limit: nat)
    ensures IsPage(sorted, skip, limit, TopK.Page(sorted, skip, limit))
  {
  }
}
