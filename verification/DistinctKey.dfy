/** The canonical byte key of a value, which DISTINCT and grouping hash, and value equality. */
module DistinctKey {

  import opened Numbers
  import opened Values
  import opened Orders
  import Ordering
  import Sums

  /** Equality of values; whether two nulls are equal depends on the caller. */
  predicate Equal(x: Value, y: Value, nullsEqual: bool) {
    match (x, y)
    case (Null, Null) => nullsEqual
    case (Integer(m), Integer(n)) => m == n
    case (Floating(f), Floating(g)) => EqualFloats(DOUBLE, f, g)
    case (Integer(m), Floating(g)) => IntegerEqualsFloat(DOUBLE, m, g)
    case (Floating(f), Integer(n)) => IntegerEqualsFloat(DOUBLE, n, f)
    case (List(xs), List(ys)) => |xs| == |ys| && forall i :: 0 <= i < |xs| ==> Equal(xs[i], ys[i], nullsEqual)
    case (Map(xs), Map(ys)) => |xs| == |ys| && forall k :: k in xs ==> k in ys && Equal(xs[k], ys[k], nullsEqual)
    case (Vector(xs), Vector(ys)) => |xs| == |ys| && forall i :: 0 <= i < |xs| ==> EqualFloats(SINGLE, xs[i], ys[i])
    case (Bool(b), Bool(c)) => b == c
    case (String(s), String(t)) => s == t
    case (NilBytes, NilBytes) => true
    case (Bytes(s), Bytes(t)) => s == t
    case (NilVector, NilVector) => true
    case (_, _) => false
  }

  /** No NaN anywhere inside. */
  predicate NaNFree(v: Value) {
    match v
    case Floating(f) => !f.NaN?
    case Vector(xs) => forall i :: 0 <= i < |xs| ==> !xs[i].NaN?
    case List(xs) => forall i :: 0 <= i < |xs| ==> NaNFree(xs[i])
    case Map(m) => forall k :: k in m ==> NaNFree(m[k])
    case _ => true
  }

  /** Every length fits the engine's int, as all lengths in memory do. */
  predicate Sized(v: Value) {
    match v
    case String(t) => |t| < LIMIT
    case Bytes(t) => |t| < LIMIT
    case Vector(xs) => |xs| < LIMIT
    case List(xs) => |xs| < LIMIT && forall i :: 0 <= i < |xs| ==> Sized(xs[i])
    case Map(m) => |m| < LIMIT && forall k :: k in m ==> |k| < LIMIT && Sized(m[k])
    case _ => true
  }

  // Bytes: little-endian 64-bit words and length-prefixed strings.

  function Digits(n: nat, k: nat): (s: seq<Byte>)
    ensures |s| == k
  {
    if k == 0 then [] else [n % 256] + Digits(n / 256, k - 1)
  }

  function Span(k: nat): nat { if k == 0 then 1 else 256 * Span(k - 1) }

  lemma {:induction false} DigitsInjective(a: nat, b: nat, k: nat)
    requires a < Span(k) && b < Span(k) && Digits(a, k) == Digits(b, k)
    ensures a == b
    decreases k
  {
    if k > 0 {
      assert Digits(a, k)[0] == a % 256 && Digits(b, k)[0] == b % 256;
      assert Digits(a / 256, k - 1) == Digits(a, k)[1..] == Digits(b, k)[1..] == Digits(b / 256, k - 1);
      DigitsInjective(a / 256, b / 256, k - 1);
    }
  }

  const WORD: nat := 0x1_0000_0000_0000_0000

  function Word(n: nat): (s: seq<Byte>)
    ensures |s| == 8
  {
    Digits(n, 8)
  }

  function Prefixed(t: Text): Text { Word(|t|) + t }

  /** Neither of two byte strings continues the other. */
  predicate Separable(a: Text, b: Text) { a == b || (!(a <= b) && !(b <= a)) }

  /** Separable strings stay separable with separable continuations, and split again. */
  lemma Append(a: Text, c: Text, b: Text, d: Text)
    requires Separable(a, b) && (a == b ==> Separable(c, d))
    ensures Separable(a + c, b + d)
    ensures a + c == b + d ==> a == b && c == d
  {
    if a + c <= b + d {
      FrontsMeet(a, c, b, d);
    }
    if b + d <= a + c {
      FrontsMeet(b, d, a, c);
    }
  }

  lemma FrontsMeet(a: Text, c: Text, b: Text, d: Text)
    requires a + c <= b + d && Separable(a, b)
    ensures a == b && c <= d
  {
    var s, t := a + c, b + d;
    assert s == t[..|s|];
    if |a| <= |b| {
      assert a == s[..|a|] == t[..|a|] == b[..|a|];
    }
    assert c == s[|a|..] == t[|a|..|s|] == d[..|c|];
  }

  lemma WordsSeparate(m: nat, n: nat)
    ensures Separable(Word(m), Word(n))
    ensures m < WORD && n < WORD && Word(m) == Word(n) ==> m == n
  {
    if m < WORD && n < WORD && Word(m) == Word(n) {
      assert Span(8) == WORD;
      DigitsInjective(m, n, 8);
    }
  }

  lemma PrefixedSeparate(x: Text, y: Text)
    requires |x| < WORD && |y| < WORD
    ensures Separable(Prefixed(x), Prefixed(y))
    ensures Prefixed(x) == Prefixed(y) ==> x == y
  {
    WordsSeparate(|x|, |y|);
    if |x| == |y| {
      assert Separable(x, y) by { assert x <= y ==> y[..|x|] == y; assert y <= x ==> x[..|y|] == x; }
    }
    Append(Word(|x|), x, Word(|y|), y);
  }

  function Concat(parts: seq<Text>): Text {
    if parts == [] then [] else parts[0] + Concat(parts[1..])
  }

  ghost predicate AllSeparable(a: seq<Text>, b: seq<Text>) {
    |a| == |b| && forall i :: 0 <= i < |a| ==> Separable(a[i], b[i])
  }

  lemma {:induction false} ConcatSeparates(a: seq<Text>, b: seq<Text>)
    requires AllSeparable(a, b)
    ensures Separable(Concat(a), Concat(b)) && (Concat(a) == Concat(b) ==> a == b)
  {
    if a != [] {
      ConcatSeparates(a[1..], b[1..]);
      Append(a[0], Concat(a[1..]), b[0], Concat(b[1..]));
      assert a == [a[0]] + a[1..] && b == [b[0]] + b[1..];
    }
  }

  /** A counted list of parts. */
  function Counted(parts: seq<Text>): Text { Word(|parts|) + Concat(parts) }

  lemma CountedSeparates(a: seq<Text>, b: seq<Text>)
    requires |a| < WORD && |b| < WORD && (|a| == |b| ==> AllSeparable(a, b))
    ensures Separable(Counted(a), Counted(b)) && (Counted(a) == Counted(b) ==> a == b)
  {
    WordsSeparate(|a|, |b|);
    if |a| == |b| { ConcatSeparates(a, b); }
    Append(Word(|a|), Concat(a), Word(|b|), Concat(b));
  }

  // Kinds of key. Integers and floats with an integer value in range share one.

  datatype Kind = KNil | KBool | KNumber | KFloat | KString | KNilBytes | KBytes | KNilVector | KVector | KList | KMap

  function KindOf(v: Value): Kind {
    match v
    case Null => KNil
    case Bool(_) => KBool
    case Integer(_) => KNumber
    case Floating(f) => if Integral(DOUBLE, f) then KNumber else KFloat
    case String(_) => KString
    case NilBytes => KNilBytes
    case Bytes(_) => KBytes
    case NilVector => KNilVector
    case Vector(_) => KVector
    case List(_) => KList
    case Map(_) => KMap
  }

  /** The ASCII tag that opens a key. */
  function Tag(kind: Kind): (t: Text)
    ensures |t| <= 10
  {
    match kind
    case KNil => [110, 105, 108]
    case KBool => [98, 111, 111, 108]
    case KNumber => [110, 117, 109, 98, 101, 114]
    case KFloat => [102, 108, 111, 97, 116]
    case KString => [115, 116, 114, 105, 110, 103]
    case KNilBytes => [98, 121, 116, 101, 115, 58, 110, 105, 108]
    case KBytes => [98, 121, 116, 101, 115]
    case KNilVector => [118, 101, 99, 116, 111, 114, 58, 110, 105, 108]
    case KVector => [118, 101, 99, 116, 111, 114]
    case KList => [108, 105, 115, 116]
    case KMap => [109, 97, 112]
  }

  /** A number that tells tags apart. */
  function Mark(t: Text): int {
    if |t| == 0 then 0 else |t| * 256 + t[0]
  }

  lemma TagsDiffer(a: Kind, b: Kind)
    requires Tag(a) == Tag(b)
    ensures a == b
  {
    assert Mark(Tag(a)) == Mark(Tag(b));
  }

  /** The integer a number key holds. */
  function NumberOf(v: Value): int
    requires KindOf(v) == KNumber
  {
    if v.Integer? then v.integer else Whole(DOUBLE, v.float)
  }

  /** Conversion of a signed to an unsigned 64-bit integer. */
  function Unsigned64(n: int): nat { n % WORD }

  /** The bits of a float; a NaN keeps its payload. */
  function DoubleBits(f: Float64): nat {
    Abs(if f.NaN? then NaNBits(DOUBLE, 63, f) else Bits(DOUBLE, 63, Numbers.Unsigned(f)))
  }

  function SingleBits(f: Float32): nat {
    Abs(if f.NaN? then NaNBits(SINGLE, 31, f) else Bits(SINGLE, 31, Numbers.Unsigned(f)))
  }

  function ElementKeys(xs: seq<Float32>): (parts: seq<Text>)
    ensures |parts| == |xs| && forall i :: 0 <= i < |xs| ==> parts[i] == Word(SingleBits(xs[i]))
  {
    seq(|xs|, i requires 0 <= i < |xs| => Word(SingleBits(xs[i])))
  }

  function Key(v: Value): Text
    decreases v, 2
  {
    Prefixed(Tag(KindOf(v))) + Body(v)
  }

  function Body(v: Value): Text
    decreases v, 1
  {
    match v
    case Null => []
    case Bool(b) => Word(if b then 1 else 0)
    case Integer(_) => Word(Unsigned64(NumberOf(v)))
    case Floating(f) => if Integral(DOUBLE, f) then Word(Unsigned64(NumberOf(v))) else Word(DoubleBits(f))
    case String(t) => Prefixed(t)
    case NilBytes => []
    case Bytes(t) => Prefixed(t)
    case NilVector => []
    case Vector(xs) => Counted(ElementKeys(xs))
    case List(_) => Counted(ItemKeys(v))
    case Map(_) => Counted(FieldKeys(v))
  }

  function ItemKeys(v: Value): (parts: seq<Text>)
    requires v.List?
    ensures |parts| == |v.items|
    decreases v, 0
  {
    seq(|v.items|, i requires 0 <= i < |v.items| => Key(v.items[i]))
  }

  /** Name and value of every field, in the order of the names. */
  function FieldKeys(v: Value): (parts: seq<Text>)
    requires v.Map?
    ensures |parts| == |v.fields|
    decreases v, 0
  {
    var keys := SortedKeys(v.fields.Keys);
    seq(|keys|, i requires 0 <= i < |keys| => Prefixed(keys[i]) + Key(v.fields[keys[i]]))
  }

  // Equal keys mean equal values.

  lemma FormatsFit()
    ensures Fits(DOUBLE, 63) && Fits(SINGLE, 31) && 2 * Pow2(63) == WORD && 2 * Pow2(31) <= WORD
  {
    Powers();
    assert Pow2(64) == 2 * Pow2(63);
  }

  lemma Powers()
    ensures Pow2(31) == 0x8000_0000 && Pow2(64) == WORD && Pow2(63) == 2048 * Pow2(52) && Pow2(31) == 256 * Pow2(23)
  {
    assert Pow2(8) == 256 && Pow2(11) == 2048;
    assert Pow2(16) == 0x1_0000;
    Pow2Add(16, 16);
    assert Pow2(32) == 2 * Pow2(31);
    Pow2Add(32, 32);
    Pow2Add(11, 52);
    Pow2Add(8, 23);
  }

  lemma Unsigned64Injective(m: int, n: int)
    requires -LIMIT <= m < LIMIT && -LIMIT <= n < LIMIT
    ensures Unsigned64(m) == Unsigned64(n) <==> m == n
  {
    assert Unsigned64(m) == if m < 0 then m + WORD else m;
    assert Unsigned64(n) == if n < 0 then n + WORD else n;
  }

  lemma NumbersAgree(x: Value, y: Value)
    requires KindOf(x) == KNumber && KindOf(y) == KNumber
    ensures Equal(x, y, true) <==> NumberOf(x) == NumberOf(y)
    ensures Unsigned64(NumberOf(x)) == Unsigned64(NumberOf(y)) <==> NumberOf(x) == NumberOf(y)
  {
    NumberRange(x);
    NumberRange(y);
    Unsigned64Injective(NumberOf(x), NumberOf(y));
    if x.Floating? && y.Floating? { EqualFloatsAreWholeTogether(DOUBLE, x.float, y.float); }
  }

  lemma NumberRange(v: Value)
    requires KindOf(v) == KNumber
    ensures -LIMIT <= NumberOf(v) < LIMIT
  {
    if v.Floating? { WholeInRange(DOUBLE, v.float); }
  }

  lemma DoublesAgree(f: Float64, g: Float64)
    requires !f.NaN? && !g.NaN?
    ensures DoubleBits(f) < WORD
    ensures DoubleBits(f) == DoubleBits(g) <==> EqualFloats(DOUBLE, f, g)
  {
    FormatsFit();
    BitsDecideEqualFloats(DOUBLE, 63, f, g);
    BitsDecideEqualFloats(DOUBLE, 63, g, f);
  }

  lemma SinglesAgree(f: Float32, g: Float32)
    requires !f.NaN? && !g.NaN?
    ensures SingleBits(f) < WORD
    ensures SingleBits(f) == SingleBits(g) <==> EqualFloats(SINGLE, f, g)
  {
    FormatsFit();
    BitsDecideEqualFloats(SINGLE, 31, f, g);
    BitsDecideEqualFloats(SINGLE, 31, g, f);
  }

  /** What the key has to achieve for a pair of values. */
  ghost predicate Told(x: Value, y: Value, a: Text, b: Text) {
    Separable(a, b) && (a == b && NaNFree(x) && NaNFree(y) ==> Equal(x, y, true))
  }

  /** Keys tell values apart: no key continues another, NaN or not, and equal keys of values free
      of NaN mean equal values. */
  lemma {:induction false} KeysTell(x: Value, y: Value)
    requires Sized(x) && Sized(y)
    ensures Told(x, y, Key(x), Key(y))
    decreases x, 2
  {
    var a, b := Tag(KindOf(x)), Tag(KindOf(y));
    PrefixedSeparate(a, b);
    if a == b {
      TagsDiffer(KindOf(x), KindOf(y));
      BodiesTell(x, y);
    }
    Append(Prefixed(a), Body(x), Prefixed(b), Body(y));
  }

  lemma {:induction false} BodiesTell(x: Value, y: Value)
    requires Sized(x) && Sized(y) && KindOf(x) == KindOf(y)
    ensures Told(x, y, Body(x), Body(y))
    decreases x, 1
  {
    match KindOf(x)
    case KNil =>
    case KNilBytes =>
    case KNilVector =>
    case KBool => WordsSeparate(if x.flag then 1 else 0, if y.flag then 1 else 0);
    case KNumber =>
      NumbersAgree(x, y);
      WordsSeparate(Unsigned64(NumberOf(x)), Unsigned64(NumberOf(y)));
    case KFloat =>
      if !x.float.NaN? && !y.float.NaN? {
        DoublesAgree(x.float, y.float);
        DoublesAgree(y.float, x.float);
      }
      WordsSeparate(DoubleBits(x.float), DoubleBits(y.float));
    case KString => PrefixedSeparate(x.text, y.text);
    case KBytes => PrefixedSeparate(x.bytes, y.bytes);
    case KVector => VectorsTell(x, y);
    case KList => ListsTell(x, y);
    case KMap => MapsTell(x, y);
  }

  lemma VectorsTell(x: Value, y: Value)
    requires Sized(x) && Sized(y) && x.Vector? && y.Vector?
    ensures Told(x, y, Body(x), Body(y))
  {
    var xs, ys := x.elements, y.elements;
    var a, b := ElementKeys(xs), ElementKeys(ys);
    forall i | 0 <= i < |a| && |a| == |b|
      ensures Separable(a[i], b[i]) && (a[i] == b[i] && !xs[i].NaN? && !ys[i].NaN? ==> EqualFloats(SINGLE, xs[i], ys[i])) {
      if !xs[i].NaN? && !ys[i].NaN? {
        SinglesAgree(xs[i], ys[i]);
        SinglesAgree(ys[i], xs[i]);
      }
      WordsSeparate(SingleBits(xs[i]), SingleBits(ys[i]));
    }
    CountedSeparates(a, b);
  }

  lemma {:induction false} ListsTell(x: Value, y: Value)
    requires Sized(x) && Sized(y) && x.List? && y.List?
    ensures Told(x, y, Body(x), Body(y))
    decreases x, 0
  {
    var xs, ys := x.items, y.items;
    var a, b := ItemKeys(x), ItemKeys(y);
    forall i | 0 <= i < |a| && |a| == |b| ensures Told(xs[i], ys[i], a[i], b[i]) {
      KeysTell(xs[i], ys[i]);
    }
    CountedSeparates(a, b);
  }

  /** One field of a map in key order. */
  lemma {:induction false} FieldsTell(x: Value, y: Value, k: Text, l: Text)
    requires Sized(x) && Sized(y) && x.Map? && y.Map? && k in x.fields && l in y.fields
    ensures var a, b := Prefixed(k) + Key(x.fields[k]), Prefixed(l) + Key(y.fields[l]);
            Told(x.fields[k], y.fields[l], a, b) && (a == b ==> k == l)
    decreases x, 0, 0
  {
    PrefixedSeparate(k, l);
    KeysTell(x.fields[k], y.fields[l]);
    Append(Prefixed(k), Key(x.fields[k]), Prefixed(l), Key(y.fields[l]));
  }

  lemma {:induction false} MapsTell(x: Value, y: Value)
    requires Sized(x) && Sized(y) && x.Map? && y.Map?
    ensures Told(x, y, Body(x), Body(y))
    decreases x, 0, 1
  {
    var k, l := SortedKeys(x.fields.Keys), SortedKeys(y.fields.Keys);
    var a, b := FieldKeys(x), FieldKeys(y);
    forall i | 0 <= i < |a| && |a| == |b|
      ensures Told(x.fields[k[i]], y.fields[l[i]], a[i], b[i]) && (a[i] == b[i] ==> k[i] == l[i]) {
      FieldsTell(x, y, k[i], l[i]);
    }
    CountedSeparates(a, b);
    if a == b && NaNFree(x) && NaNFree(y) { SameFields(x.fields, y.fields); }
  }

  lemma SameFields(x: map<Text, Value>, y: map<Text, Value>)
    requires |x| == |y|
    requires var k, l := SortedKeys(x.Keys), SortedKeys(y.Keys);
             forall i :: 0 <= i < |x| ==> k[i] == l[i] && Equal(x[k[i]], y[l[i]], true)
    ensures forall k :: k in x ==> k in y && Equal(x[k], y[k], true)
  {
    Ordering.SortedKeysSorted(x.Keys);
    var keys := SortedKeys(x.Keys);
    forall k | k in x ensures k in y && Equal(x[k], y[k], true) {
      assert k in multiset(keys);
      var j :| 0 <= j < |keys| && keys[j] == k;
    }
  }

  // Equal values have equal keys.

  lemma EqualVectors(xs: seq<Float32>, ys: seq<Float32>)
    requires |xs| == |ys| && forall i :: 0 <= i < |xs| ==> EqualFloats(SINGLE, xs[i], ys[i])
    ensures ElementKeys(xs) == ElementKeys(ys)
  {
    forall i | 0 <= i < |xs| ensures SingleBits(xs[i]) == SingleBits(ys[i]) { SinglesAgree(xs[i], ys[i]); }
  }

  lemma EqualFloatKeys(f: Float64, g: Float64)
    requires EqualFloats(DOUBLE, f, g)
    ensures Key(Floating(f)) == Key(Floating(g))
  {
    EqualFloatsAreWholeTogether(DOUBLE, f, g);
    DoublesAgree(f, g);
  }

  lemma {:induction false} EqualKeys(x: Value, y: Value)
    requires Equal(x, y, true)
    ensures Key(x) == Key(y)
    decreases x, 1
  {
    match x
    case Floating(f) => if y.Floating? { EqualFloatKeys(f, y.float); }
    case Vector(xs) => EqualVectors(xs, y.elements);
    case List(xs) => EqualLists(x, y);
    case Map(m) => EqualMaps(x, y);
    case _ =>
  }

  lemma {:induction false} EqualLists(x: Value, y: Value)
    requires x.List? && y.List? && Equal(x, y, true)
    ensures ItemKeys(x) == ItemKeys(y)
    decreases x, 0
  {
    forall i | 0 <= i < |x.items| ensures ItemKeys(x)[i] == ItemKeys(y)[i] { EqualKeys(x.items[i], y.items[i]); }
  }

  lemma {:induction false} EqualMaps(x: Value, y: Value)
    requires x.Map? && y.Map? && Equal(x, y, true)
    ensures FieldKeys(x) == FieldKeys(y)
    decreases x, 0
  {
    Sums.SubsetOfSameSize(x.fields.Keys, y.fields.Keys);
    var k := SortedKeys(x.fields.Keys);
    forall i | 0 <= i < |k| ensures FieldKeys(x)[i] == FieldKeys(y)[i] { EqualKeys(x.fields[k[i]], y.fields[k[i]]); }
  }

  lemma {:induction false} EqualIsNaNFree(x: Value, y: Value)
    requires Equal(x, y, true)
    ensures NaNFree(x) && NaNFree(y)
    decreases x
  {
    match x
    case List(xs) =>
      forall i | 0 <= i < |xs| ensures NaNFree(xs[i]) && NaNFree(y.items[i]) { EqualIsNaNFree(xs[i], y.items[i]); }
    case Map(m) =>
      Sums.SubsetOfSameSize(m.Keys, y.fields.Keys);
      forall k | k in m ensures NaNFree(m[k]) && NaNFree(y.fields[k]) { EqualIsNaNFree(m[k], y.fields[k]); }
    case _ =>
  }

  /** Two values are equal, nulls included, exactly when both are free of NaN and their keys are
      the same bytes; an integer and a float of the same value share a key. */
  lemma EqualIffSameKey(x: Value, y: Value)
    requires Sized(x) && Sized(y)
    ensures Equal(x, y, true) <==> NaNFree(x) && NaNFree(y) && Key(x) == Key(y)
  {
    if Equal(x, y, true) {
      EqualKeys(x, y);
      EqualIsNaNFree(x, y);
    } else if NaNFree(x) && NaNFree(y) && Key(x) == Key(y) {
      KeysTell(x, y);
    }
  }

  /** No key is a proper prefix of another. */
  lemma PrefixFree(x: Value, y: Value)
    requires Sized(x) && Sized(y) && Key(x) <= Key(y)
    ensures Key(x) == Key(y) && (NaNFree(x) && NaNFree(y) ==> Equal(x, y, true))
  {
    KeysTell(x, y);
  }
}
