/** What the order and the equality of values mean, stated without the functions that compute them:
    which kind comes first, what decides between two values of a kind, and that equality is the
    order's own up to NaN and nil. */
module ValueLaws {

  import opened Numbers
  import opened Values
  import opened Orders
  import opened DistinctKey
  import Ordering
  import Sums

  // Kinds.

  /** Numbers come first, then booleans, strings, byte strings, vectors, lists, maps and null. */
  lemma KindsInOrder(x: Value, y: Value)
    ensures (x.Integer? || x.Floating?) && !y.Integer? && !y.Floating? ==> Compare(x, y) < 0
    ensures x.Bool? && !y.Integer? && !y.Floating? && !y.Bool? ==> Compare(x, y) < 0
    ensures x.String? && (y.NilBytes? || y.Bytes? || y.NilVector? || y.Vector? || y.List? || y.Map? || y.Null?) ==> Compare(x, y) < 0
    ensures (x.NilBytes? || x.Bytes?) && (y.NilVector? || y.Vector? || y.List? || y.Map? || y.Null?) ==> Compare(x, y) < 0
    ensures (x.NilVector? || x.Vector?) && (y.List? || y.Map? || y.Null?) ==> Compare(x, y) < 0
    ensures x.List? && (y.Map? || y.Null?) ==> Compare(x, y) < 0
    ensures x.Map? && y.Null? ==> Compare(x, y) < 0
    ensures x == Bool(false) && y == Bool(true) ==> Compare(x, y) < 0
  {
  }

  // Sequences: the first difference decides, then the length.

  lemma {:induction false} LexAt<T>(c: (T, T) -> int, x: seq<T>, y: seq<T>, k: nat)
    requires k <= |x| && k <= |y| && forall i :: 0 <= i < k ==> c(x[i], y[i]) == 0
    ensures k == |x| || k == |y| ==> Lex(c, x, y) == Sign(|x| - |y|)
    ensures k < |x| && k < |y| && c(x[k], y[k]) != 0 ==> Lex(c, x, y) == c(x[k], y[k])
    decreases k
  {
    if k > 0 { LexAt(c, x[1..], y[1..], k - 1); }
  }

  /** A string comes before another exactly when it is a proper prefix of it or has the smaller byte
      at the first difference. */
  lemma TextsInOrder(x: Text, y: Text)
    ensures CompareText(x, y) < 0 <==> exists k: nat :: k <= |x| && k <= |y| && x[..k] == y[..k] && (if k < |x| then k < |y| && x[k] < y[k] else k < |y|)
  {
    if CompareText(x, y) < 0 {
      var k := FirstDifference(x, y);
      SamePrefix(x, y, k);
      LexAt(CompareByte, x, y, k);
    }
    if k: nat :| k <= |x| && k <= |y| && x[..k] == y[..k] && (if k < |x| then k < |y| && x[k] < y[k] else k < |y|) {
      SamePrefix(x, y, k);
      LexAt(CompareByte, x, y, k);
    }
  }

  lemma SamePrefix(x: Text, y: Text, k: nat)
    requires k <= |x| && k <= |y| && x[..k] == y[..k]
    ensures forall i :: 0 <= i < k ==> CompareByte(x[i], y[i]) == 0
  {
    forall i | 0 <= i < k ensures x[i] == y[i] { assert x[i] == x[..k][i] && y[i] == y[..k][i]; }
  }

  lemma {:induction false} FirstDifference(x: Text, y: Text) returns (k: nat)
    ensures k <= |x| && k <= |y| && x[..k] == y[..k] && (k < |x| && k < |y| ==> x[k] != y[k])
  {
    if x == [] || y == [] || x[0] != y[0] {
      k := 0;
    } else {
      var j := FirstDifference(x[1..], y[1..]);
      k := j + 1;
      assert x[..k] == [x[0]] + x[1..][..j] && y[..k] == [y[0]] + y[1..][..j];
    }
  }

  lemma {:induction false} ItemsFrom(x: Value, y: Value, i: nat, k: nat)
    requires x.List? && y.List? && i <= k <= |x.items| && k <= |y.items|
    requires forall j :: i <= j < k ==> Compare(x.items[j], y.items[j]) == 0
    ensures CompareItems(x, y, i) == CompareItems(x, y, k)
    decreases k - i
  {
    if i < k { ItemsFrom(x, y, i + 1, k); }
  }

  /** Lists: the first items that differ decide, then the lengths. */
  lemma ListsInOrder(x: Value, y: Value, k: nat)
    requires x.List? && y.List? && k <= |x.items| && k <= |y.items|
    requires forall j :: 0 <= j < k ==> Compare(x.items[j], y.items[j]) == 0
    ensures k == |x.items| || k == |y.items| ==> Compare(x, y) == Sign(|x.items| - |y.items|)
    ensures k < |x.items| && k < |y.items| && Compare(x.items[k], y.items[k]) != 0 ==> Compare(x, y) == Compare(x.items[k], y.items[k])
  {
    ItemsFrom(x, y, 0, k);
  }

  /** Two maps agree on their first k keys in string order, and on what they hold there. */
  ghost predicate SameFields(x: Value, y: Value, i: nat, k: nat)
    requires x.Map? && y.Map? && k <= |x.fields| && k <= |y.fields|
  {
    forall j :: i <= j < k ==> SameField(x, y, j)
  }

  ghost predicate SameField(x: Value, y: Value, j: nat)
    requires x.Map? && y.Map? && j < |x.fields| && j < |y.fields|
  {
    var p, q := SortedKeys(x.fields.Keys)[j], SortedKeys(y.fields.Keys)[j];
    p == q && Compare(x.fields[p], y.fields[q]) == 0
  }

  lemma {:induction false} FieldsFrom(x: Value, y: Value, i: nat, k: nat)
    requires x.Map? && y.Map? && i <= k <= |x.fields| && k <= |y.fields| && SameFields(x, y, i, k)
    ensures CompareFields(x, y, i) == CompareFields(x, y, k)
    decreases k - i
  {
    if i < k {
      assert SameField(x, y, i);
      var p := SortedKeys(x.fields.Keys)[i];
      TextOrdering(p, p, p);
      FieldsFrom(x, y, i + 1, k);
    }
  }

  /** The keys of a map in string order, and what it holds under the k-th. */
  function KeyAt(v: Value, k: nat): (key: Text)
    requires v.Map? && k < |v.fields|
    ensures key in v.fields
  {
    SortedKeys(v.fields.Keys)[k]
  }

  lemma FieldDecides(x: Value, y: Value, k: nat)
    requires x.Map? && y.Map? && k < |x.fields| && k < |y.fields|
    ensures KeyAt(x, k) != KeyAt(y, k) ==> CompareFields(x, y, k) == CompareText(KeyAt(x, k), KeyAt(y, k))
    ensures var c := Compare(x.fields[KeyAt(x, k)], y.fields[KeyAt(y, k)]); KeyAt(x, k) == KeyAt(y, k) && c != 0 ==> CompareFields(x, y, k) == c
  {
    TextOrdering(KeyAt(x, k), KeyAt(y, k), KeyAt(x, k));
  }

  /** Maps: the first key in string order at which they differ decides, by the key and then by the
      value, then the number of keys. */
  lemma MapsInOrder(x: Value, y: Value, k: nat)
    requires x.Map? && y.Map? && k <= |x.fields| && k <= |y.fields| && SameFields(x, y, 0, k)
    ensures k == |x.fields| || k == |y.fields| ==> Compare(x, y) == Sign(|x.fields| - |y.fields|)
    ensures k < |x.fields| && k < |y.fields| && KeyAt(x, k) != KeyAt(y, k) ==> Compare(x, y) == CompareText(KeyAt(x, k), KeyAt(y, k))
    ensures k < |x.fields| && k < |y.fields| && KeyAt(x, k) == KeyAt(y, k) ==>
              var c := Compare(x.fields[KeyAt(x, k)], y.fields[KeyAt(y, k)]); c != 0 ==> Compare(x, y) == c
  {
    FieldsFrom(x, y, 0, k);
    if k < |x.fields| && k < |y.fields| { FieldDecides(x, y, k); }
  }

  // Equality.

  /** Numbers are equal exactly when neither is NaN and they stand at the same point of the line. */
  lemma NumbersEqual(x: Value, y: Value, nullsEqual: bool)
    requires Rank(x) == 0 == Rank(y)
    ensures Equal(x, y, nullsEqual) <==> NaNFree(x) && NaNFree(y) && Ordering.NumberPosition(x) == Ordering.NumberPosition(y)
    ensures Equal(x, y, nullsEqual) <==> NaNFree(x) && NaNFree(y) && CompareNumbers(x, y) == 0
  {
    Ordering.NumbersCompareByPosition(x, y);
    match (x, y)
    case (Integer(m), Integer(n)) => Ordering.IntegersByPosition(DOUBLE, m, n);
    case (Integer(m), Floating(g)) => MixedEqual(m, g);
    case (Floating(f), Integer(n)) => MixedEqual(n, f);
    case (Floating(f), Floating(g)) => FloatsEqual(f, g);
  }

  lemma MixedEqual(n: Int64, f: Float64)
    ensures IntegerEqualsFloat(DOUBLE, n, f) <==> !f.NaN? && IntegerPosition(DOUBLE, n) == FloatPosition(DOUBLE, f)
    ensures IntegerEqualsFloat(DOUBLE, n, f) <==> !f.NaN? && ComparePositions(IntegerPosition(DOUBLE, n), FloatPosition(DOUBLE, f)) == 0
  {
    IntegerEqualsExactly(DOUBLE, n, f);
  }

  lemma FloatsEqual(f: Float64, g: Float64)
    ensures EqualFloats(DOUBLE, f, g) <==> !f.NaN? && !g.NaN? && FloatPosition(DOUBLE, f) == FloatPosition(DOUBLE, g)
    ensures EqualFloats(DOUBLE, f, g) <==> !f.NaN? && !g.NaN? && ComparePositions(FloatPosition(DOUBLE, f), FloatPosition(DOUBLE, g)) == 0
  {
  }

  /** Nil and empty byte strings and vectors compare alike but are not equal. */
  predicate SameForm(x: Value, y: Value) {
    match (x, y)
    case (List(xs), List(ys)) => |xs| == |ys| ==> forall i :: 0 <= i < |xs| ==> SameForm(xs[i], ys[i])
    case (Map(xs), Map(ys)) => forall k :: k in xs && k in ys ==> SameForm(xs[k], ys[k])
    case (_, _) => x.NilBytes? == y.NilBytes? && x.NilVector? == y.NilVector?
  }

  lemma {:induction false} ItemsTie(x: Value, y: Value, i: nat)
    requires x.List? && y.List? && i <= |x.items| && i <= |y.items|
    ensures CompareItems(x, y, i) == 0 <==> |x.items| == |y.items| && forall j :: i <= j < |x.items| ==> Compare(x.items[j], y.items[j]) == 0
    decreases |x.items| - i
  {
    if i < |x.items| && i < |y.items| { ItemsTie(x, y, i + 1); }
  }

  lemma {:induction false} FieldsTie(x: Value, y: Value, i: nat)
    requires x.Map? && y.Map? && i <= |x.fields| && i <= |y.fields|
    ensures CompareFields(x, y, i) == 0 <==> |x.fields| == |y.fields| && SameFields(x, y, i, |x.fields|)
    decreases |x.fields| - i
  {
    if i < |x.fields| && i < |y.fields| {
      FieldsTie(x, y, i + 1);
      FieldTies(x, y, i);
      if |x.fields| == |y.fields| { FieldsSplit(x, y, i, |x.fields|); }
    }
  }

  lemma FieldTies(x: Value, y: Value, i: nat)
    requires x.Map? && y.Map? && i < |x.fields| && i < |y.fields|
    ensures CompareFields(x, y, i) == 0 <==> SameField(x, y, i) && CompareFields(x, y, i + 1) == 0
  {
    var p, q := SortedKeys(x.fields.Keys)[i], SortedKeys(y.fields.Keys)[i];
    TextOrdering(p, q, p);
  }

  lemma FieldsSplit(x: Value, y: Value, i: nat, k: nat)
    requires x.Map? && y.Map? && i < k <= |x.fields| && k <= |y.fields|
    ensures SameFields(x, y, i, k) <==> SameField(x, y, i) && SameFields(x, y, i + 1, k)
  {
  }

  lemma LexTies<T(!new)>(c: (T, T) -> int, x: seq<T>, y: seq<T>)
    ensures Lex(c, x, y) == 0 <==> |x| == |y| && forall i :: 0 <= i < |x| ==> c(x[i], y[i]) == 0
  {
    if Lex(c, x, y) == 0 { LexZero(c, x, y); }
    if |x| == |y| && forall i :: 0 <= i < |x| ==> c(x[i], y[i]) == 0 { LexAt(c, x, y, |x|); }
  }

  lemma FieldsTieByKey(x: Value, y: Value)
    requires x.Map? && y.Map? && |x.fields| == |y.fields|
    ensures SameFields(x, y, 0, |x.fields|) <==> forall k :: k in x.fields ==> k in y.fields && Compare(x.fields[k], y.fields[k]) == 0
  {
    var keys := SortedKeys(x.fields.Keys);
    if SameFields(x, y, 0, |x.fields|) {
      Ordering.SortedKeysSorted(x.fields.Keys);
      forall k | k in x.fields ensures k in y.fields && Compare(x.fields[k], y.fields[k]) == 0 {
        assert k in multiset(keys);
        var j :| 0 <= j < |keys| && keys[j] == k;
        assert SameField(x, y, j);
      }
    }
    if forall k :: k in x.fields ==> k in y.fields && Compare(x.fields[k], y.fields[k]) == 0 {
      SameKeys(x.fields, y.fields);
      forall j | 0 <= j < |x.fields| ensures SameField(x, y, j) { assert keys[j] in x.fields; }
    }
  }

  lemma SameKeys(x: map<Text, Value>, y: map<Text, Value>)
    requires |x| == |y| && forall k :: k in x ==> k in y
    ensures x.Keys == y.Keys
  {
    assert |x| == |x.Keys| && |y| == |y.Keys|;
    Sums.SubsetOfSameSize(x.Keys, y.Keys);
  }

  /** Two values are equal, with nulls equal, exactly when they tie in the order, no NaN is inside
      and nil is nil in both. */
  lemma {:induction false} EqualIffTied(x: Value, y: Value)
    ensures EqualTies(x, y)
    decreases x
  {
    if x.List? && y.List? {
      if |x.items| == |y.items| {
        forall i | 0 <= i < |x.items| ensures EqualTies(x.items[i], y.items[i]) { EqualIffTied(x.items[i], y.items[i]); }
      }
      ListTies(x, y);
    } else if x.Map? && y.Map? {
      forall k | k in x.fields && k in y.fields ensures EqualTies(x.fields[k], y.fields[k]) { EqualIffTied(x.fields[k], y.fields[k]); }
      MapTies(x, y);
    } else {
      FlatTie(x, y);
    }
  }

  lemma ListTies(x: Value, y: Value)
    requires x.List? && y.List? && (|x.items| == |y.items| ==> forall i :: 0 <= i < |x.items| ==> EqualTies(x.items[i], y.items[i]))
    ensures EqualTies(x, y)
  {
    ItemsTie(x, y, 0);
    if |x.items| == |y.items| { ListsTie(x, y); }
  }

  lemma MapTies(x: Value, y: Value)
    requires x.Map? && y.Map? && forall k :: k in x.fields && k in y.fields ==> EqualTies(x.fields[k], y.fields[k])
    ensures EqualTies(x, y)
  {
    FieldsTie(x, y, 0);
    if |x.fields| == |y.fields| {
      FieldsTieByKey(x, y);
      MapsTie(x, y);
    }
  }

  ghost predicate EqualTies(x: Value, y: Value) {
    Equal(x, y, true) <==> NaNFree(x) && NaNFree(y) && SameForm(x, y) && Compare(x, y) == 0
  }

  lemma ListsTie(x: Value, y: Value)
    requires x.List? && y.List? && |x.items| == |y.items| && forall i :: 0 <= i < |x.items| ==> EqualTies(x.items[i], y.items[i])
    ensures Equal(x, y, true) <==> NaNFree(x) && NaNFree(y) && SameForm(x, y) && forall i :: 0 <= i < |x.items| ==> Compare(x.items[i], y.items[i]) == 0
  {
    var xs, ys := x.items, y.items;
    if Equal(x, y, true) {
      forall i | 0 <= i < |xs| ensures NaNFree(xs[i]) && NaNFree(ys[i]) && SameForm(xs[i], ys[i]) && Compare(xs[i], ys[i]) == 0 { assert EqualTies(xs[i], ys[i]); }
    }
    if NaNFree(x) && NaNFree(y) && SameForm(x, y) && forall i :: 0 <= i < |xs| ==> Compare(xs[i], ys[i]) == 0 {
      forall i | 0 <= i < |xs| ensures Equal(xs[i], ys[i], true) { assert EqualTies(xs[i], ys[i]); }
    }
  }

  lemma MapsTie(x: Value, y: Value)
    requires x.Map? && y.Map? && |x.fields| == |y.fields| && forall k :: k in x.fields && k in y.fields ==> EqualTies(x.fields[k], y.fields[k])
    ensures Equal(x, y, true)
      <==> NaNFree(x) && NaNFree(y) && SameForm(x, y) && forall k :: k in x.fields ==> k in y.fields && Compare(x.fields[k], y.fields[k]) == 0
  {
    var xs, ys := x.fields, y.fields;
    if Equal(x, y, true) {
      SameKeys(xs, ys);
      forall k | k in xs ensures NaNFree(xs[k]) && NaNFree(ys[k]) && SameForm(xs[k], ys[k]) && Compare(xs[k], ys[k]) == 0 { assert EqualTies(xs[k], ys[k]); }
      forall k | k in ys ensures NaNFree(ys[k]) { assert k in xs; }
    }
    if NaNFree(x) && NaNFree(y) && SameForm(x, y) && forall k :: k in xs ==> k in ys && Compare(xs[k], ys[k]) == 0 {
      forall k | k in xs ensures Equal(xs[k], ys[k], true) { assert EqualTies(xs[k], ys[k]); }
    }
  }

  lemma FlatTie(x: Value, y: Value)
    requires !(x.List? && y.List?) && !(x.Map? && y.Map?)
    ensures EqualTies(x, y)
  {
    if Rank(x) == 0 == Rank(y) {
      NumbersEqual(x, y, true);
    } else if x.String? && y.String? {
      TextOrdering(x.text, y.text, x.text);
    } else if Rank(x) == 3 == Rank(y) {
      TextOrdering(ByteContents(x), ByteContents(y), ByteContents(x));
    } else if Rank(x) == 4 == Rank(y) {
      VectorsTie(x, y);
    }
  }

  lemma VectorsTie(x: Value, y: Value)
    requires Rank(x) == 4 == Rank(y)
    ensures EqualTies(x, y)
  {
    LexTies(CompareSingle, VectorContents(x), VectorContents(y));
    if x.Vector? && y.Vector? && |x.elements| == |y.elements| {
      forall i | 0 <= i < |x.elements| ensures SinglesTie(x.elements[i], y.elements[i]) { }
    }
  }

  ghost predicate SinglesTie(f: Float32, g: Float32) {
    EqualFloats(SINGLE, f, g) <==> !f.NaN? && !g.NaN? && CompareSingle(f, g) == 0
  }

  /** No null anywhere inside. */
  predicate NullFree(v: Value) {
    match v
    case Null => false
    case List(xs) => forall i :: 0 <= i < |xs| ==> NullFree(xs[i])
    case Map(m) => forall k :: k in m ==> NullFree(m[k])
    case _ => true
  }

  /** Where nulls are not equal, exactly the values without null keep their equals. */
  lemma {:induction false} NullsDiffer(x: Value, y: Value)
    ensures Equal(x, y, false) <==> Equal(x, y, true) && NullFree(x)
    decreases x
  {
    if x.List? && y.List? && |x.items| == |y.items| {
      var xs, ys := x.items, y.items;
      forall i | 0 <= i < |xs| ensures Equal(xs[i], ys[i], false) <==> Equal(xs[i], ys[i], true) && NullFree(xs[i]) { NullsDiffer(xs[i], ys[i]); }
    } else if x.Map? && y.Map? && |x.fields| == |y.fields| {
      var xs, ys := x.fields, y.fields;
      forall k | k in xs && k in ys ensures Equal(xs[k], ys[k], false) <==> Equal(xs[k], ys[k], true) && NullFree(xs[k]) { NullsDiffer(xs[k], ys[k]); }
    }
  }
}
