/** Query values and the order ORDER BY puts them in. */
module Values {

  import opened Numbers

  type Byte = n: nat | n < 256

  /** Go strings are byte sequences. */
  type Text = seq<Byte>

  const DOUBLE := Format(53, -1074, 971)
  const SINGLE := Format(24, -149, 104)

  type Float64 = f: Float | Canonical(DOUBLE, f) witness Infinity(false)
  type Float32 = f: Float | Canonical(SINGLE, f) witness Infinity(false)

  /** Normalised query values. Byte and vector slices may also be nil, which orders like empty. */
  datatype Value =
    | Null
    | Bool(flag: bool)
    | Integer(integer: Int64)
    | Floating(float: Float64)
    | String(text: Text)
    | NilBytes
    | Bytes(bytes: seq<Byte>)
    | NilVector
    | Vector(elements: seq<Float32>)
    | List(items: seq<Value>)
    | Map(fields: map<Text, Value>)

  function Rank(v: Value): int {
    match v
    case Integer(_) => 0
    case Floating(_) => 0
    case Bool(_) => 1
    case String(_) => 2
    case NilBytes => 3
    case Bytes(_) => 3
    case NilVector => 4
    case Vector(_) => 4
    case List(_) => 5
    case Map(_) => 6
    case Null => 7
  }

  /** Comparison of the elements at the first difference, then of the lengths. */
  function Lex<T>(c: (T, T) -> int, x: seq<T>, y: seq<T>): int {
    if x == [] || y == [] then Sign(|x| - |y|)
    else if c(x[0], y[0]) != 0 then c(x[0], y[0])
    else Lex(c, x[1..], y[1..])
  }

  function CompareByte(x: Byte, y: Byte): int { Sign(x - y) }

  function CompareText(x: Text, y: Text): int { Lex(CompareByte, x, y) }

  function CompareSingle(x: Float32, y: Float32): int { CompareFloats(SINGLE, x, y) }

  predicate TextLe(x: Text, y: Text) { CompareText(x, y) <= 0 }

  // What makes a three-way comparison an order, one pair and one triple at a time.

  predicate Ternary(c: int) { -1 <= c <= 1 }

  predicate Opposite(xy: int, yx: int) { Ternary(xy) && yx == -xy }

  predicate Chained(xy: int, yz: int, xz: int) {
    xy <= 0 && yz <= 0 ==> xz == if xy < yz then xy else yz
  }

  ghost predicate Ordering<T(!new)>(c: (T, T) -> int) {
    && (forall x, y :: Opposite(c(x, y), c(y, x)))
    && (forall x, y, z :: Chained(c(x, y), c(y, z), c(x, z)))
  }

  lemma {:induction false} LexOpposite<T(!new)>(c: (T, T) -> int, x: seq<T>, y: seq<T>)
    requires Ordering(c)
    ensures Opposite(Lex(c, x, y), Lex(c, y, x))
  {
    if x != [] && y != [] {
      assert Opposite(c(x[0], y[0]), c(y[0], x[0]));
      LexOpposite(c, x[1..], y[1..]);
    }
  }

  lemma {:induction false} LexChained<T(!new)>(c: (T, T) -> int, x: seq<T>, y: seq<T>, z: seq<T>)
    requires Ordering(c)
    ensures Chained(Lex(c, x, y), Lex(c, y, z), Lex(c, x, z))
  {
    LexOpposite(c, x, y);
    LexOpposite(c, y, z);
    if x != [] && y != [] && z != [] {
      assert Chained(c(x[0], y[0]), c(y[0], z[0]), c(x[0], z[0]));
      assert Opposite(c(x[0], y[0]), c(y[0], x[0])) && Opposite(c(y[0], z[0]), c(z[0], y[0]));
      LexChained(c, x[1..], y[1..], z[1..]);
    }
  }

  lemma {:induction false} LexZero<T>(c: (T, T) -> int, x: seq<T>, y: seq<T>)
    requires Lex(c, x, y) == 0
    ensures |x| == |y| && forall i :: 0 <= i < |x| ==> c(x[i], y[i]) == 0
  {
    if x != [] && y != [] { LexZero(c, x[1..], y[1..]); }
  }

  lemma ByteOrdering()
    ensures Ordering(CompareByte)
  {
  }

  lemma SingleOrdering()
    ensures Ordering(CompareSingle)
  {
    forall x: Float32, y: Float32 ensures Opposite(CompareSingle(x, y), CompareSingle(y, x)) {
      FloatsCompareByPosition(SINGLE, x, y);
      FloatsCompareByPosition(SINGLE, y, x);
    }
    forall x: Float32, y: Float32, z: Float32 ensures Chained(CompareSingle(x, y), CompareSingle(y, z), CompareSingle(x, z)) {
      FloatsCompareByPosition(SINGLE, x, y);
      FloatsCompareByPosition(SINGLE, y, z);
      FloatsCompareByPosition(SINGLE, x, z);
    }
  }

  lemma TextOrdering(x: Text, y: Text, z: Text)
    ensures Opposite(CompareText(x, y), CompareText(y, x))
    ensures Chained(CompareText(x, y), CompareText(y, z), CompareText(x, z))
    ensures CompareText(x, y) == 0 <==> x == y
  {
    ByteOrdering();
    LexOpposite(CompareByte, x, y);
    LexOpposite(CompareByte, x, x);
    LexChained(CompareByte, x, y, z);
    if CompareText(x, y) == 0 { LexZero(CompareByte, x, y); }
  }

  lemma {:induction false} LeastText(keys: set<Text>) returns (k: Text)
    requires keys != {}
    ensures k in keys && forall x :: x in keys ==> TextLe(k, x)
    decreases |keys|
  {
    var first :| first in keys;
    TextOrdering(first, first, first);
    if keys == {first} {
      k := first;
    } else {
      var best := LeastText(keys - {first});
      TextOrdering(first, best, first);
      TextOrdering(best, best, best);
      k := if TextLe(first, best) then first else best;
      assert TextLe(k, best) && TextLe(k, first);
      forall x | x in keys ensures TextLe(k, x) {
        if x != first {
          assert x in keys - {first};
          TextOrdering(k, best, x);
        }
      }
    }
  }

  /** The keys of a map in string order. */
  function SortedKeys(keys: set<Text>): (s: seq<Text>)
    ensures |s| == |keys| && forall i :: 0 <= i < |s| ==> s[i] in keys
  {
    if keys == {} then []
    else
      assert exists k :: k in keys && forall x :: x in keys ==> TextLe(k, x) by { var k := LeastText(keys); }
      assert forall k, l :: k in keys && l in keys && TextLe(k, l) && TextLe(l, k) ==> k == l by { Unique(keys); }
      var k :| k in keys && forall x :: x in keys ==> TextLe(k, x);
      [k] + SortedKeys(keys - {k})
  }

  lemma Unique(keys: set<Text>)
    ensures forall k, l :: k in keys && l in keys && TextLe(k, l) && TextLe(l, k) ==> k == l
  {
    forall k, l | k in keys && l in keys && TextLe(k, l) && TextLe(l, k) ensures k == l {
      TextOrdering(k, l, k);
    }
  }

  /** Numbers compare as positions on the number line; both conversions are the engine's. */
  function CompareNumbers(x: Value, y: Value): int
    requires Rank(x) == 0 == Rank(y)
  {
    match (x, y)
    case (Integer(m), Integer(n)) => Sign(m - n)
    case (Floating(f), Floating(g)) => CompareFloats(DOUBLE, f, g)
    case (Integer(m), Floating(g)) => if g.NaN? then 1 else CompareIntegerFloat(DOUBLE, m, g)
    case (Floating(f), Integer(n)) => if f.NaN? then -1 else -CompareIntegerFloat(DOUBLE, n, f)
  }

  function ByteContents(v: Value): seq<Byte>
    requires Rank(v) == 3
  {
    if v.NilBytes? then [] else v.bytes
  }

  function VectorContents(v: Value): seq<Float32>
    requires Rank(v) == 4
  {
    if v.NilVector? then [] else v.elements
  }

  /** The order of values of every kind. */
  function Compare(x: Value, y: Value): int
    decreases x, 1, 0
  {
    if Rank(x) != Rank(y) then Sign(Rank(x) - Rank(y))
    else match x
      case Integer(_) => CompareNumbers(x, y)
      case Floating(_) => CompareNumbers(x, y)
      case Bool(b) => if b == y.flag then 0 else if !b then -1 else 1
      case String(t) => CompareText(t, y.text)
      case NilBytes => Lex(CompareByte, ByteContents(x), ByteContents(y))
      case Bytes(_) => Lex(CompareByte, ByteContents(x), ByteContents(y))
      case NilVector => Lex(CompareSingle, VectorContents(x), VectorContents(y))
      case Vector(_) => Lex(CompareSingle, VectorContents(x), VectorContents(y))
      case List(_) => CompareItems(x, y, 0)
      case Map(_) => CompareFields(x, y, 0)
      case Null => 0
  }

  function CompareItems(x: Value, y: Value, i: nat): int
    requires x.List? && y.List? && i <= |x.items| && i <= |y.items|
    decreases x, 0, |x.items| - i
  {
    if i == |x.items| || i == |y.items| then Sign(|x.items| - |y.items|)
    else if Compare(x.items[i], y.items[i]) != 0 then Compare(x.items[i], y.items[i])
    else CompareItems(x, y, i + 1)
  }

  function CompareFields(x: Value, y: Value, i: nat): int
    requires x.Map? && y.Map? && i <= |x.fields| && i <= |y.fields|
    decreases x, 0, |x.fields| - i
  {
    var k, l := SortedKeys(x.fields.Keys), SortedKeys(y.fields.Keys);
    if i == |x.fields| || i == |y.fields| then Sign(|x.fields| - |y.fields|)
    else if CompareText(k[i], l[i]) != 0 then CompareText(k[i], l[i])
    else if Compare(x.fields[k[i]], y.fields[l[i]]) != 0 then Compare(x.fields[k[i]], y.fields[l[i]])
    else CompareFields(x, y, i + 1)
  }
}
