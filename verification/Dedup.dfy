/** DISTINCT: rows are hashed by their canonical key, compared inside a bucket and filtered in
    place. */
module Dedup {

  import opened Values
  import opened Numbers
  import opened Orders
  import opened DistinctKey
  import Ordering
  import Sorting

  // The key and the equality as the engine computes them, loop by loop.

  lemma ConcatGrows(parts: seq<Text>, n: nat)
    requires n < |parts|
    ensures Concat(parts[..n + 1]) == Concat(parts[..n]) + parts[n]
  {
    assert parts[..n + 1] == parts[..n] + [parts[n]];
    ConcatSnoc(parts[..n], parts[n]);
  }

  lemma {:induction false} ConcatSnoc(parts: seq<Text>, last: Text)
    ensures Concat(parts + [last]) == Concat(parts) + last
  {
    if parts == [] {
      assert [last][1..] == [] && parts + [last] == [last];
    } else {
      ConcatSnoc(parts[1..], last);
      assert (parts + [last])[1..] == parts[1..] + [last];
    }
  }

  /** Map keys are collected in any order and merge-sorted between two buffers. */
  method SortKeys(keys: set<Text>) returns (sorted: seq<Text>)
    ensures sorted == SortedKeys(keys)
  {
    var list := Enumerate(keys);
    var buffer := new Text[|list|](i requires 0 <= i < |list| => list[i]);
    var scratch := new Text[|list|];
    assert buffer[..] == list;
    Ordering.TextOrder();
    var result := Sorting.MergeSortSwapping(TextLe, buffer, scratch);
    Ordering.SortedByAnyOrder(list, keys);
    sorted := result[..];
  }

  /** The count and the first n parts are written. */
  ghost predicate Written(key: Text, parts: seq<Text>, n: nat) {
    n <= |parts| && key == Word(|parts|) + Concat(parts[..n])
  }

  lemma WriteNone(parts: seq<Text>)
    ensures Written(Word(|parts|), parts, 0)
  {
    assert parts[..0] == [];
  }

  lemma WritePart(key: Text, parts: seq<Text>, n: nat)
    requires n < |parts| && Written(key, parts, n)
    ensures Written(key + parts[n], parts, n + 1)
  {
    ConcatGrows(parts, n);
    Regroup(Word(|parts|), Concat(parts[..n]), parts[n]);
  }

  lemma Regroup(a: Text, b: Text, c: Text)
    ensures (a + b) + c == a + (b + c)
  {
  }

  lemma WriteAll(key: Text, parts: seq<Text>)
    requires Written(key, parts, |parts|)
    ensures key == Counted(parts)
  {
    assert parts[..|parts|] == parts;
  }

  method WriteElements(xs: seq<Float32>) returns (key: Text)
    ensures key == Counted(ElementKeys(xs))
  {
    key := Word(|xs|);
    ghost var parts := ElementKeys(xs);
    WriteNone(parts);
    for i := 0 to |xs|
      invariant Written(key, parts, i)
    {
      WritePart(key, parts, i);
      key := key + Word(SingleBits(xs[i]));
    }
    WriteAll(key, parts);
  }

  /** Writing the key of a value. */
  method WriteKey(v: Value) returns (key: Text)
    ensures key == Key(v)
    decreases v, 1
  {
    var head := Prefixed(Tag(KindOf(v)));
    match v
    case List(xs) =>
      var body := WriteItems(v);
      key := head + body;
    case Map(m) =>
      var body := WriteFields(v);
      key := head + body;
    case Vector(xs) =>
      var body := WriteElements(xs);
      key := head + body;
    case _ => key := head + Body(v);
  }

  method WriteItems(v: Value) returns (key: Text)
    requires v.List?
    ensures key == Counted(ItemKeys(v))
    decreases v, 0
  {
    var items := v.items;
    key := Word(|items|);
    ghost var parts := ItemKeys(v);
    WriteNone(parts);
    for i := 0 to |items|
      invariant Written(key, parts, i)
    {
      WritePart(key, parts, i);
      var item := WriteKey(items[i]);
      key := key + item;
    }
    WriteAll(key, parts);
  }

  method WriteFields(v: Value) returns (key: Text)
    requires v.Map?
    ensures key == Counted(FieldKeys(v))
    decreases v, 0
  {
    var keys := SortKeys(v.fields.Keys);
    key := Word(|keys|);
    ghost var parts := FieldKeys(v);
    WriteNone(parts);
    for i := 0 to |keys|
      invariant Written(key, parts, i)
    {
      WritePart(key, parts, i);
      var field := WriteKey(v.fields[keys[i]]);
      key := key + (Prefixed(keys[i]) + field);
    }
    WriteAll(key, parts);
  }

  /** Byte strings are compared in chunks. */
  method EqualChunked(x: Text, y: Text) returns (r: bool)
    ensures r == (x == y)
  {
    if |x| != |y| {
      return false;
    }
    var start := 0;
    while start < |x|
      invariant start <= |x| && x[..start] == y[..start]
    {
      var end := Sorting.Min(start + Ordering.CHUNK, |x|);
      if x[start..end] != y[start..end] {
        assert x != y;
        return false;
      }
      assert x[..end] == x[..start] + x[start..end] && y[..end] == y[..start] + y[start..end];
      start := end;
    }
    assert x[..|x|] == x && y[..|x|] == y;
    return true;
  }

  /** The budgeted equality decides equality. */
  method EqualBudgeted(x: Value, y: Value, nullsEqual: bool) returns (r: bool)
    ensures r == Equal(x, y, nullsEqual)
    decreases x
  {
    match (x, y)
    case (List(xs), List(ys)) =>
      if |xs| != |ys| {
        return false;
      }
      for i := 0 to |xs|
        invariant forall j :: 0 <= j < i ==> Equal(xs[j], ys[j], nullsEqual)
      {
        var same := EqualBudgeted(xs[i], ys[i], nullsEqual);
        if !same {
          return false;
        }
      }
      return true;
    case (Map(xs), Map(ys)) =>
      if |xs| != |ys| {
        return false;
      }
      var rest := xs.Keys;
      while rest != {}
        invariant rest <= xs.Keys
        invariant forall k :: k in xs && k !in rest ==> k in ys && Equal(xs[k], ys[k], nullsEqual)
        decreases |rest|
      {
        var key :| key in rest;
        if key !in ys {
          return false;
        }
        var same := EqualBudgeted(xs[key], ys[key], nullsEqual);
        if !same {
          return false;
        }
        rest := rest - {key};
      }
      return true;
    case (String(s), String(t)) => r := EqualChunked(s, t);
    case (Bytes(s), Bytes(t)) => r := EqualChunked(s, t);
    case (_, _) => r := Equal(x, y, nullsEqual);
  }

  // Rows and their classes.

  type Row = map<Text, Value>

  /** A missing column reads as null. */
  function Cell(row: Row, column: Text): Value {
    if column in row then row[column] else Null
  }

  predicate RowsEqual(columns: seq<Text>, x: Row, y: Row) {
    forall c :: 0 <= c < |columns| ==> Equal(Cell(x, columns[c]), Cell(y, columns[c]), true)
  }

  predicate SizedRow(columns: seq<Text>, x: Row) {
    forall c :: 0 <= c < |columns| ==> Sized(Cell(x, columns[c]))
  }

  function RowKey(columns: seq<Text>, x: Row): Text {
    Concat(seq(|columns|, c requires 0 <= c < |columns| => Key(Cell(x, columns[c]))))
  }

  /** Equality of rows is symmetric and transitive, although a row with NaN differs even from
      itself. */
  lemma RowsEqualLaws(columns: seq<Text>, x: Row, y: Row, z: Row)
    requires SizedRow(columns, x) && SizedRow(columns, y) && SizedRow(columns, z)
    ensures RowsEqual(columns, x, y) ==> RowsEqual(columns, y, x) && RowKey(columns, x) == RowKey(columns, y)
    ensures RowsEqual(columns, x, y) && RowsEqual(columns, y, z) ==> RowsEqual(columns, x, z)
  {
    forall c | 0 <= c < |columns|
      ensures var a, b, d := Cell(x, columns[c]), Cell(y, columns[c]), Cell(z, columns[c]);
              && (Equal(a, b, true) ==> Equal(b, a, true) && Key(a) == Key(b))
              && (Equal(a, b, true) && Equal(b, d, true) ==> Equal(a, d, true)) {
      var a, b, d := Cell(x, columns[c]), Cell(y, columns[c]), Cell(z, columns[c]);
      EqualIffSameKey(a, b);
      EqualIffSameKey(b, a);
      EqualIffSameKey(b, d);
      EqualIffSameKey(a, d);
    }
    if RowsEqual(columns, x, y) {
      var p := seq(|columns|, c requires 0 <= c < |columns| => Key(Cell(x, columns[c])));
      var q := seq(|columns|, c requires 0 <= c < |columns| => Key(Cell(y, columns[c])));
      assert p == q;
    }
  }

  /** Row n is the first of its class. */
  predicate IsFirst(columns: seq<Text>, rows: seq<Row>, n: nat)
    requires n < |rows|
  {
    forall i :: 0 <= i < n ==> !RowsEqual(columns, rows[n], rows[i])
  }

  /** The first row of every class among the first n rows, in order. */
  function Firsts(columns: seq<Text>, rows: seq<Row>, n: nat): (kept: seq<Row>)
    requires n <= |rows|
    ensures |kept| <= n
  {
    if n == 0 then []
    else Firsts(columns, rows, n - 1) + if IsFirst(columns, rows, n - 1) then [rows[n - 1]] else []
  }

  lemma {:induction false} KeptComesFromRow(columns: seq<Text>, rows: seq<Row>, n: nat, k: nat) returns (i: nat)
    requires n <= |rows| && k < |Firsts(columns, rows, n)|
    ensures i < n && rows[i] == Firsts(columns, rows, n)[k]
    decreases n
  {
    if k < |Firsts(columns, rows, n - 1)| {
      i := KeptComesFromRow(columns, rows, n - 1, k);
    } else {
      i := n - 1;
    }
  }

  ghost predicate AllSized(columns: seq<Text>, rows: seq<Row>) {
    forall i :: 0 <= i < |rows| ==> SizedRow(columns, rows[i])
  }

  lemma EarlierTwin(columns: seq<Text>, rows: seq<Row>, x: Row, i: nat) returns (j: nat)
    requires AllSized(columns, rows) && SizedRow(columns, x) && i < |rows| && RowsEqual(columns, x, rows[i])
    requires !IsFirst(columns, rows, i)
    ensures j < i && RowsEqual(columns, x, rows[j])
  {
    j :| 0 <= j < i && RowsEqual(columns, rows[i], rows[j]);
    RowsEqualLaws(columns, x, rows[i], rows[j]);
  }

  /** The class of x is represented among the kept rows. */
  ghost predicate Represented(columns: seq<Text>, x: Row, kept: seq<Row>) {
    exists k :: 0 <= k < |kept| && RowsEqual(columns, x, kept[k])
  }

  /** The first row of the class of x. */
  lemma {:induction false} FirstOfClass(columns: seq<Text>, rows: seq<Row>, x: Row, i: nat) returns (j: nat)
    requires AllSized(columns, rows) && SizedRow(columns, x) && i < |rows| && RowsEqual(columns, x, rows[i])
    ensures j <= i && RowsEqual(columns, x, rows[j]) && IsFirst(columns, rows, j)
  {
    if IsFirst(columns, rows, i) {
      j := i;
    } else {
      j := EarlierTwin(columns, rows, x, i);
      j := FirstOfClass(columns, rows, x, j);
    }
  }

  lemma {:induction false} FirstIsKept(columns: seq<Text>, rows: seq<Row>, n: nat, j: nat) returns (k: nat)
    requires j < n <= |rows| && IsFirst(columns, rows, j)
    ensures k < |Firsts(columns, rows, n)| && Firsts(columns, rows, n)[k] == rows[j]
    decreases n
  {
    if j < n - 1 {
      k := FirstIsKept(columns, rows, n - 1, j);
    } else {
      k := |Firsts(columns, rows, n)| - 1;
    }
  }

  /** A row equal to any earlier row is equal to a kept one. */
  lemma ClassIsKept(columns: seq<Text>, rows: seq<Row>, x: Row, n: nat, i: nat)
    requires AllSized(columns, rows) && SizedRow(columns, x) && i < n <= |rows| && RowsEqual(columns, x, rows[i])
    ensures Represented(columns, x, Firsts(columns, rows, n))
  {
    var j := FirstOfClass(columns, rows, x, i);
    var k := FirstIsKept(columns, rows, n, j);
  }

  /** The rows differ in the value of some column. */
  ghost predicate Differ(columns: seq<Text>, x: Row, y: Row) {
    exists c :: 0 <= c < |columns| && !Equal(Cell(x, columns[c]), Cell(y, columns[c]), true)
  }

  /** Where the kept rows come from. */
  function Places(columns: seq<Text>, rows: seq<Row>, n: nat): seq<nat>
    requires n <= |rows|
  {
    if n == 0 then [] else Places(columns, rows, n - 1) + if IsFirst(columns, rows, n - 1) then [n - 1] else []
  }

  lemma {:induction false} PlacesAscend(columns: seq<Text>, rows: seq<Row>, n: nat)
    requires n <= |rows|
    ensures forall k :: 0 <= k < |Places(columns, rows, n)| ==> Places(columns, rows, n)[k] < n
    ensures forall k, l :: 0 <= k < l < |Places(columns, rows, n)| ==> Places(columns, rows, n)[k] < Places(columns, rows, n)[l]
  {
    if n > 0 { PlacesAscend(columns, rows, n - 1); }
  }

  lemma {:induction false} PlacesAreFirsts(columns: seq<Text>, rows: seq<Row>, n: nat, i: nat)
    requires i < n <= |rows|
    ensures i in Places(columns, rows, n) <==> IsFirst(columns, rows, i)
    decreases n
  {
    PlacesAscend(columns, rows, n - 1);
    if i < n - 1 { PlacesAreFirsts(columns, rows, n - 1, i); }
  }

  lemma {:induction false} PlacesHold(columns: seq<Text>, rows: seq<Row>, n: nat)
    requires n <= |rows|
    ensures |Places(columns, rows, n)| == |Firsts(columns, rows, n)|
    ensures forall k :: 0 <= k < |Places(columns, rows, n)| ==> Places(columns, rows, n)[k] < n && Firsts(columns, rows, n)[k] == rows[Places(columns, rows, n)[k]]
  {
    if n > 0 { PlacesHold(columns, rows, n - 1); }
  }

  /** What DISTINCT keeps: in the order of the input, exactly the rows that differ from every row
      before them. */
  lemma DistinctMeans(columns: seq<Text>, rows: seq<Row>, n: nat) returns (kept: seq<nat>)
    requires n <= |rows|
    ensures |kept| == |Firsts(columns, rows, n)| && forall k :: 0 <= k < |kept| ==> kept[k] < n && Firsts(columns, rows, n)[k] == rows[kept[k]]
    ensures forall k, l :: 0 <= k < l < |kept| ==> kept[k] < kept[l]
    ensures forall i :: 0 <= i < n ==> (i in kept <==> forall j :: 0 <= j < i ==> Differ(columns, rows[i], rows[j]))
  {
    kept := Places(columns, rows, n);
    PlacesHold(columns, rows, n);
    PlacesAscend(columns, rows, n);
    forall i | 0 <= i < n ensures i in kept <==> forall j :: 0 <= j < i ==> Differ(columns, rows[i], rows[j]) {
      PlacesAreFirsts(columns, rows, n, i);
      FirstDiffers(columns, rows, i);
    }
  }

  lemma FirstDiffers(columns: seq<Text>, rows: seq<Row>, i: nat)
    requires i < |rows|
    ensures IsFirst(columns, rows, i) <==> forall j :: 0 <= j < i ==> Differ(columns, rows[i], rows[j])
  {
    forall j | 0 <= j < i ensures Differ(columns, rows[i], rows[j]) <==> !RowsEqual(columns, rows[i], rows[j]) { }
  }

  type Buckets = map<nat, seq<nat>>

  function Bucket(buckets: Buckets, h: nat): seq<nat> {
    if h in buckets then buckets[h] else []
  }

  predicate Below(bucket: seq<nat>, n: nat) {
    forall i :: 0 <= i < |bucket| ==> bucket[i] < n
  }

  /** Some kept row listed in the bucket equals this one. */
  ghost predicate Meets(columns: seq<Text>, row: Row, kept: seq<Row>, bucket: seq<nat>)
    requires Below(bucket, |kept|)
  {
    exists i :: 0 <= i < |bucket| && RowsEqual(columns, row, kept[bucket[i]])
  }

  /** Every kept row is in the bucket of its hash, and buckets name kept rows only. */
  ghost predicate Indexed(columns: seq<Text>, hash: Text -> nat, kept: seq<Row>, buckets: Buckets) {
    && (forall k :: 0 <= k < |kept| ==> k in Bucket(buckets, hash(RowKey(columns, kept[k]))))
    && (forall h: nat :: Below(Bucket(buckets, h), |kept|))
  }

  method RowKeyOf(columns: seq<Text>, row: Row) returns (key: Text)
    ensures key == RowKey(columns, row)
  {
    key := [];
    ghost var parts := seq(|columns|, c requires 0 <= c < |columns| => Key(Cell(row, columns[c])));
    for c := 0 to |columns|
      invariant key == Concat(parts[..c])
    {
      ConcatGrows(parts, c);
      var part := WriteKey(Cell(row, columns[c]));
      key := key + part;
    }
    assert parts[..|columns|] == parts;
  }

  method RowsEqualBudgeted(columns: seq<Text>, x: Row, y: Row) returns (r: bool)
    ensures r == RowsEqual(columns, x, y)
  {
    for c := 0 to |columns|
      invariant forall d :: 0 <= d < c ==> Equal(Cell(x, columns[d]), Cell(y, columns[d]), true)
    {
      var same := EqualBudgeted(Cell(x, columns[c]), Cell(y, columns[c]), true);
      if !same {
        return false;
      }
    }
    return true;
  }

  /** Look for a kept row equal to this one in its bucket. */
  method FindDuplicate(columns: seq<Text>, row: Row, rows: array<Row>, kept: nat, bucket: seq<nat>) returns (found: bool)
    requires kept <= rows.Length && Below(bucket, kept)
    ensures found <==> Meets(columns, row, rows[..kept], bucket)
  {
    for i := 0 to |bucket|
      invariant forall j :: 0 <= j < i ==> !RowsEqual(columns, row, rows[..kept][bucket[j]])
    {
      var same := RowsEqualBudgeted(columns, row, rows[bucket[i]]);
      if same {
        assert rows[..kept][bucket[i]] == rows[bucket[i]];
        return true;
      }
      assert rows[..kept][bucket[i]] == rows[bucket[i]];
    }
    return false;
  }

  /** Looking only into the bucket misses no equal row. */
  lemma BucketDecides(columns: seq<Text>, hash: Text -> nat, rows: seq<Row>, n: nat, buckets: Buckets)
    requires AllSized(columns, rows) && n < |rows| && Indexed(columns, hash, Firsts(columns, rows, n), buckets)
    ensures var kept, bucket := Firsts(columns, rows, n), Bucket(buckets, hash(RowKey(columns, rows[n])));
            IsFirst(columns, rows, n) <==> !Meets(columns, rows[n], kept, bucket)
  {
    var kept, bucket := Firsts(columns, rows, n), Bucket(buckets, hash(RowKey(columns, rows[n])));
    if !IsFirst(columns, rows, n) {
      var i: nat :| i < n && RowsEqual(columns, rows[n], rows[i]);
      ClassIsKept(columns, rows, rows[n], n, i);
      var k :| 0 <= k < |kept| && RowsEqual(columns, rows[n], kept[k]);
      var origin := KeptComesFromRow(columns, rows, n, k);
      RowsEqualLaws(columns, rows[n], kept[k], kept[k]);
      assert k in bucket;
      var b :| 0 <= b < |bucket| && bucket[b] == k;
    } else {
      forall b | 0 <= b < |bucket| ensures !RowsEqual(columns, rows[n], kept[bucket[b]]) {
        var origin := KeptComesFromRow(columns, rows, n, bucket[b]);
      }
    }
  }

  lemma IndexGrows(columns: seq<Text>, hash: Text -> nat, kept: seq<Row>, buckets: Buckets, row: Row, grown: Buckets)
    requires Indexed(columns, hash, kept, buckets)
    requires var h := hash(RowKey(columns, row)); grown == buckets[h := Bucket(buckets, h) + [|kept|]]
    ensures Indexed(columns, hash, kept + [row], grown)
  {
    forall h: nat ensures Below(Bucket(grown, h), |kept| + 1) { assert Below(Bucket(buckets, h), |kept|); }
    forall k | 0 <= k <= |kept| ensures k in Bucket(grown, hash(RowKey(columns, (kept + [row])[k]))) {
      var key := RowKey(columns, (kept + [row])[k]);
      BucketGrows(buckets, hash(RowKey(columns, row)), |kept|, hash(key));
      if k < |kept| {
        assert key == RowKey(columns, kept[k]) && k in Bucket(buckets, hash(key));
      }
    }
  }

  lemma BucketGrows(buckets: Buckets, h: nat, n: nat, g: nat)
    ensures Bucket(buckets[h := Bucket(buckets, h) + [n]], g) == if g == h then Bucket(buckets, h) + [n] else Bucket(buckets, g)
  {
  }

  /** Look at row n: keep it unless its bucket holds an equal row. */
  method DistinctStep(columns: seq<Text>, hash: Text -> nat, rows: array<Row>, n: nat, kept: nat, buckets: Buckets, ghost input: seq<Row>)
    returns (kept': nat, buckets': Buckets)
    requires |input| == rows.Length && AllSized(columns, input) && kept <= n < rows.Length && rows[n] == input[n]
    requires rows[..kept] == Firsts(columns, input, n) && Indexed(columns, hash, Firsts(columns, input, n), buckets)
    modifies rows
    ensures kept' <= n + 1 && rows[..kept'] == Firsts(columns, input, n + 1)
    ensures Indexed(columns, hash, Firsts(columns, input, n + 1), buckets')
    ensures forall i :: n < i < rows.Length ==> rows[i] == old(rows[i])
  {
    kept', buckets' := kept, buckets;
    ghost var front := rows[..kept];
    var row := rows[n];
    var key := RowKeyOf(columns, row);
    var bucket := Bucket(buckets, hash(key));
    var duplicate := FindDuplicate(columns, row, rows, kept, bucket);
    BucketDecides(columns, hash, input, n, buckets);
    if !duplicate {
      buckets' := buckets[hash(key) := bucket + [kept]];
      IndexGrows(columns, hash, front, buckets, row, buckets');
      rows[kept] := row;
      kept' := kept + 1;
      assert rows[..kept'] == front + [row];
    }
  }

  /** DISTINCT keeps exactly the first row of every class, in order, whatever the hash. The
      kept rows overwrite the front of the array being read. */
  method DistinctRows(columns: seq<Text>, rows: array<Row>, hash: Text -> nat) returns (kept: nat)
    requires AllSized(columns, rows[..])
    modifies rows
    ensures kept <= rows.Length && rows[..kept] == Firsts(columns, old(rows[..]), rows.Length)
  {
    ghost var input := rows[..];
    kept := 0;
    var buckets: Buckets := map[];
    for n := 0 to rows.Length
      invariant kept <= n && rows[..kept] == Firsts(columns, input, n)
      invariant forall i :: n <= i < rows.Length ==> rows[i] == input[i]
      invariant Indexed(columns, hash, Firsts(columns, input, n), buckets)
    {
      kept, buckets := DistinctStep(columns, hash, rows, n, kept, buckets, input);
    }
  }
}
