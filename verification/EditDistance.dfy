/** Levenshtein distance with a length-gap test, two rows and an early exit. */
module EditDistance {

  /** Distances count runes, not bytes. */
  type Runes = seq<char>

  function Min(x: int, y: int): int { if x <= y then x else y }

  function Cost(a: char, b: char): int { if a == b then 0 else 1 }

  /** The distance by its recurrence on last characters. */
  ghost function Distance(x: Runes, z: Runes): (d: nat)
    decreases |x| + |z|, 1
  {
    if x == [] then |z| else if z == [] then |x| else Cheapest(x, z)
  }

  /** The cheapest way to treat the last characters: drop, insert, or replace. */
  ghost function Cheapest(x: Runes, z: Runes): (d: nat)
    requires x != [] && z != []
    decreases |x| + |z|, 0
  {
    Min(Min(Distance(x[..|x| - 1], z) + 1, Distance(x, z[..|z| - 1]) + 1),
        Distance(x[..|x| - 1], z[..|z| - 1]) + Cost(x[|x| - 1], z[|z| - 1]))
  }

  /** `y` is one edit away from `x`, written around a common prefix and suffix. */
  ghost predicate OneEdit(x: Runes, y: Runes) {
    exists p, s, c, d :: EditOf(x, y, p, s, c, d)
  }

  ghost predicate EditOf(x: Runes, y: Runes, p: Runes, s: Runes, c: char, d: char) {
    || (x == p + [c] + s && y == p + s)
    || (x == p + s && y == p + [c] + s)
    || (x == p + [c] + s && y == p + [d] + s)
  }

  /** A script of single edits from x to z. */
  ghost predicate Script(x: Runes, z: Runes, steps: seq<Runes>)
    decreases |steps|
  {
    if steps == [] then x == z else OneEdit(x, steps[0]) && Script(steps[0], z, steps[1..])
  }

  lemma LastStep(x: Runes, z: Runes)
    requires x != [] && z != []
    ensures Distance(x, z) <= Distance(x[..|x| - 1], z) + 1
    ensures Distance(x, z) <= Distance(x, z[..|z| - 1]) + 1
    ensures Distance(x, z) <= Distance(x[..|x| - 1], z[..|z| - 1]) + Cost(x[|x| - 1], z[|z| - 1])
  {
  }

  lemma {:induction false} DistanceToSelf(x: Runes)
    ensures Distance(x, x) == 0
    decreases |x|
  {
    if x != [] { DistanceToSelf(x[..|x| - 1]); }
  }

  lemma {:induction false} Symmetric(x: Runes, z: Runes)
    ensures Distance(x, z) == Distance(z, x)
    decreases |x| + |z|
  {
    if x != [] && z != [] {
      Symmetric(x[..|x| - 1], z);
      Symmetric(x, z[..|z| - 1]);
      Symmetric(x[..|x| - 1], z[..|z| - 1]);
    }
  }

  lemma {:induction false} LengthGap(x: Runes, z: Runes)
    ensures |x| - |z| <= Distance(x, z) && |z| - |x| <= Distance(x, z)
    decreases |x| + |z|
  {
    if x != [] && z != [] {
      LengthGap(x[..|x| - 1], z);
      LengthGap(x, z[..|z| - 1]);
      LengthGap(x[..|x| - 1], z[..|z| - 1]);
    }
  }

  /** One edit moves the distance by at most one. */
  lemma {:induction false} EditMovesByOne(x: Runes, y: Runes, p: Runes, s: Runes, c: char, d: char, z: Runes)
    requires EditOf(x, y, p, s, c, d)
    ensures Distance(x, z) <= Distance(y, z) + 1
    decreases |s| + |z|
  {
    if z == [] {
    } else if s == [] {
      EditAtEnd(x, y, p, c, d, z);
    } else {
      var z', s' := z[..|z| - 1], s[..|s| - 1];
      SameLast(x, y, p, s, c, d);
      EditMovesByOne(x[..|x| - 1], y[..|y| - 1], p, s', c, d, z);
      EditMovesByOne(x[..|x| - 1], y[..|y| - 1], p, s', c, d, z');
      EditMovesByOne(x, y, p, s, c, d, z');
      AllStepsMove(x, y, z);
    }
  }

  lemma AllStepsMove(x: Runes, y: Runes, z: Runes)
    requires x != [] && y != [] && z != [] && x[|x| - 1] == y[|y| - 1]
    requires Distance(x[..|x| - 1], z) <= Distance(y[..|y| - 1], z) + 1
    requires Distance(x, z[..|z| - 1]) <= Distance(y, z[..|z| - 1]) + 1
    requires Distance(x[..|x| - 1], z[..|z| - 1]) <= Distance(y[..|y| - 1], z[..|z| - 1]) + 1
    ensures Distance(x, z) <= Distance(y, z) + 1
  {
    LastStep(x, z);
    assert Distance(y, z) == Cheapest(y, z);
  }

  lemma SameLast(x: Runes, y: Runes, p: Runes, s: Runes, c: char, d: char)
    requires EditOf(x, y, p, s, c, d) && s != []
    ensures x != [] && y != [] && x[|x| - 1] == y[|y| - 1] == s[|s| - 1]
    ensures EditOf(x[..|x| - 1], y[..|y| - 1], p, s[..|s| - 1], c, d)
  {
    var s' := s[..|s| - 1];
    assert (p + [c] + s)[..|p| + |s|] == p + [c] + s';
    assert (p + s)[..|p| + |s| - 1] == p + s';
    assert (p + [d] + s)[..|p| + |s|] == p + [d] + s';
  }

  /** A last character more or less moves the distance by at most one. */
  lemma {:induction false} DropAtEnd(p: Runes, c: char, z: Runes)
    ensures Distance(p + [c], z) <= Distance(p, z) + 1 && Distance(p, z) <= Distance(p + [c], z) + 1
    decreases |z|
  {
    var x := p + [c];
    assert x[..|p|] == p;
    if z != [] {
      DropAtEnd(p, c, z[..|z| - 1]);
      LastStep(x, z);
      if p != [] { LastStep(p, z); }
    }
  }

  /** Another last character moves the distance by at most one. */
  lemma {:induction false} ReplaceAtEnd(p: Runes, c: char, d: char, z: Runes)
    ensures Distance(p + [c], z) <= Distance(p + [d], z) + 1
    decreases |z|
  {
    var x, y := p + [c], p + [d];
    assert x[..|p|] == p && y[..|p|] == p;
    if z != [] {
      ReplaceAtEnd(p, c, d, z[..|z| - 1]);
      LastStep(x, z);
    }
  }

  lemma EditAtEnd(x: Runes, y: Runes, p: Runes, c: char, d: char, z: Runes)
    requires EditOf(x, y, p, [], c, d)
    ensures Distance(x, z) <= Distance(y, z) + 1
  {
    assert p + [c] + [] == p + [c] && p + [d] + [] == p + [d] && p + [] == p;
    DropAtEnd(p, c, z);
    ReplaceAtEnd(p, c, d, z);
  }

  /** No script is shorter than the distance. */
  lemma {:induction false} ScriptsAreNotShorter(x: Runes, z: Runes, steps: seq<Runes>)
    requires Script(x, z, steps)
    ensures Distance(x, z) <= |steps|
    decreases |steps|
  {
    if steps == [] {
      DistanceToSelf(x);
    } else {
      ScriptsAreNotShorter(steps[0], z, steps[1..]);
      var p, s, c, d :| EditOf(x, steps[0], p, s, c, d);
      EditMovesByOne(x, steps[0], p, s, c, d, z);
    }
  }

  lemma {:induction false} AppendToAll(x: Runes, z: Runes, steps: seq<Runes>, c: char) returns (longer: seq<Runes>)
    requires Script(x, z, steps)
    ensures Script(x + [c], z + [c], longer) && |longer| == |steps|
    decreases |steps|
  {
    if steps == [] {
      longer := [];
    } else {
      var rest := AppendToAll(steps[0], z, steps[1..], c);
      var p, s, a, b :| EditOf(x, steps[0], p, s, a, b);
      EditBeforeLast(x, steps[0], p, s, a, b, c);
      longer := [steps[0] + [c]] + rest;
      assert longer[1..] == rest;
    }
  }

  lemma EditBeforeLast(x: Runes, y: Runes, p: Runes, s: Runes, a: char, b: char, c: char)
    requires EditOf(x, y, p, s, a, b)
    ensures OneEdit(x + [c], y + [c])
  {
    assert p + [a] + s + [c] == p + [a] + (s + [c]);
    assert p + s + [c] == p + (s + [c]);
    assert p + [b] + s + [c] == p + [b] + (s + [c]);
    assert EditOf(x + [c], y + [c], p, s + [c], a, b);
  }

  lemma FirstEdit(x: Runes, y: Runes, z: Runes, steps: seq<Runes>)
    requires OneEdit(x, y) && Script(y, z, steps)
    ensures Script(x, z, [y] + steps)
  {
    assert ([y] + steps)[1..] == steps;
  }

  /** Some script is exactly as long as the distance. */
  lemma {:induction false} ShortestScript(x: Runes, z: Runes) returns (steps: seq<Runes>)
    ensures Script(x, z, steps) && |steps| == Distance(x, z)
    decreases |x| + |z|
  {
    if x == [] && z == [] {
      steps := [];
    } else if x == [] || (z != [] && Distance(x, z) == Distance(x, z[..|z| - 1]) + 1) {
      var z', c := z[..|z| - 1], z[|z| - 1];
      var rest := ShortestScript(x, z');
      var longer := AppendToAll(x, z', rest, c);
      assert z' + [c] == z;
      assert EditOf(x, x + [c], x, [], c, c) by { assert x + [] == x && x + [c] + [] == x + [c]; }
      FirstEdit(x, x + [c], z, longer);
      steps := [x + [c]] + longer;
    } else {
      var x', c := x[..|x| - 1], x[|x| - 1];
      assert x' + [c] == x;
      if z == [] || Distance(x, z) == Distance(x', z) + 1 {
        var rest := ShortestScript(x', z);
        assert EditOf(x, x', x', [], c, c) by { assert x' + [] == x' && x' + [c] + [] == x; }
        FirstEdit(x, x', z, rest);
        steps := [x'] + rest;
      } else {
        var z', d := z[..|z| - 1], z[|z| - 1];
        var rest := ShortestScript(x', z');
        var longer := AppendToAll(x', z', rest, d);
        assert z' + [d] == z;
        if c == d {
          steps := longer;
        } else {
          assert EditOf(x, x' + [d], x', [], c, d) by { assert x' + [c] + [] == x && x' + [d] + [] == x' + [d]; }
          FirstEdit(x, x' + [d], z, longer);
          steps := [x' + [d]] + longer;
        }
      }
    }
  }

  /** The least entry of a row never decreases from one row to the next. */
  lemma {:induction false} RowMinimum(x: Runes, z: Runes, n: nat, low: int)
    requires n <= |x| && (forall j :: 0 <= j <= |z| ==> low <= Distance(x[..n], z[..j]))
    ensures low <= Distance(x, z)
    decreases |x| - n
  {
    if n == |x| {
      assert x[..n] == x && z[..|z|] == z;
    } else {
      forall j | 0 <= j <= |z| ensures low <= Distance(x[..n + 1], z[..j]) {
        NextRow(x[..n + 1], z, j, low) by {
          assert x[..n + 1][..n] == x[..n];
        }
      }
      RowMinimum(x, z, n + 1, low);
    }
  }

  lemma {:induction false} NextRow(x: Runes, z: Runes, j: nat, low: int)
    requires x != [] && j <= |z| && (forall i :: 0 <= i <= |z| ==> low <= Distance(x[..|x| - 1], z[..i]))
    ensures low <= Distance(x, z[..j])
    decreases j
  {
    if j == 0 {
      assert z[..0] == [];
    } else {
      NextRow(x, z, j - 1, low);
      assert z[..j][..j - 1] == z[..j - 1];
    }
  }

  /** Row i of the table: distances from the first i characters of x to every prefix of z. */
  ghost function Row(x: Runes, z: Runes, i: nat): (row: seq<int>)
    requires i <= |x|
    ensures |row| == |z| + 1
  {
    seq(|z| + 1, j requires 0 <= j <= |z| => Distance(x[..i], z[..j]))
  }

  /** `below` is computed from `above` by the recurrence, for the character c. */
  ghost predicate Follows(above: seq<int>, below: seq<int>, first: int, c: char, z: Runes) {
    && |above| == |below| == |z| + 1 && below[0] == first
    && forall j :: 0 <= j < |z| ==> below[j + 1] == Min(Min(above[j + 1] + 1, below[j] + 1), above[j] + Cost(c, z[j]))
  }

  lemma RowsFollow(x: Runes, z: Runes, i: nat)
    requires i < |x|
    ensures Follows(Row(x, z, i), Row(x, z, i + 1), i + 1, x[i], z)
  {
    assert x[..i + 1][..i] == x[..i] && z[..0] == [];
    forall j | 0 <= j < |z|
      ensures Row(x, z, i + 1)[j + 1] == Min(Min(Row(x, z, i)[j + 1] + 1, Row(x, z, i + 1)[j] + 1), Row(x, z, i)[j] + Cost(x[i], z[j]))
    {
      assert z[..j + 1][..j] == z[..j];
      assert Distance(x[..i + 1], z[..j + 1]) == Cheapest(x[..i + 1], z[..j + 1]);
    }
  }

  /** Fill one row of the table from the row above and find its least entry. */
  method FillRow(first: int, c: char, z: Runes, prev: array<int>, curr: array<int>, ghost above: seq<int>, ghost below: seq<int>) returns (low: int)
    requires Follows(above, below, first, c, z) && prev != curr
    requires prev.Length == curr.Length == |z| + 1 && prev[..] == above
    modifies curr
    ensures curr[..] == below
    ensures forall j :: 0 <= j <= |z| ==> low <= below[j]
    ensures low in below
  {
    curr[0] := first;
    low := curr[0];
    for j := 0 to |z|
      invariant prev[..] == above
      invariant forall i :: 0 <= i <= j ==> low <= below[i] == curr[i]
      invariant low in below
    {
      curr[j + 1] := Min(Min(prev[j + 1] + 1, curr[j] + 1), prev[j] + Cost(c, z[j]));
      assert curr[j + 1] == below[j + 1];
      low := Min(low, curr[j + 1]);
    }
  }

  /** Bounded distance: within the bound the result is the distance, beyond it the result is
      beyond the bound too. */
  method BoundedDistance(left: Runes, right: Runes, maxDistance: nat) returns (d: int)
    ensures d <= maxDistance <==> Distance(left, right) <= maxDistance
    ensures d <= maxDistance ==> d == Distance(left, right)
  {
    Symmetric(left, right);
    LengthGap(left, right);
    var gap := if |left| > |right| then |left| - |right| else |right| - |left|;
    if gap > maxDistance {
      return gap;
    }
    var long, short := left, right;
    if |right| > |left| {
      long, short := right, left;
    }
    if |short| == 0 {
      return |long|;
    }
    d := Table(long, short, maxDistance);
  }

  method Table(long: Runes, short: Runes, maxDistance: nat) returns (d: int)
    ensures d <= maxDistance <==> Distance(long, short) <= maxDistance
    ensures d <= maxDistance ==> d == Distance(long, short)
  {
    var prev := new int[|short| + 1](j => j);
    var curr := new int[|short| + 1];
    var i := 0;
    FirstRow(long, short);
    assert prev[..] == Row(long, short, 0);
    while i < |long|
      invariant 0 <= i <= |long| && prev.Length == curr.Length == |short| + 1 && prev != curr
      invariant fresh(prev) && fresh(curr)
      invariant prev[..] == Row(long, short, i)
    {
      RowsFollow(long, short, i);
      ghost var above, below := Row(long, short, i), Row(long, short, i + 1);
      var low := FillRow(i + 1, long[i], short, prev, curr, above, below);
      if low > maxDistance {
        BeyondRow(long, short, i + 1, low);
        return low;
      }
      prev, curr := curr, prev;
      i := i + 1;
    }
    LastEntry(long, short);
    d := prev[|short|];
  }

  lemma FirstRow(x: Runes, z: Runes)
    ensures forall j :: 0 <= j <= |z| ==> Row(x, z, 0)[j] == j
  {
    assert x[..0] == [];
  }

  lemma LastEntry(x: Runes, z: Runes)
    ensures Row(x, z, |x|)[|z|] == Distance(x, z)
  {
    assert x[..|x|] == x && z[..|z|] == z;
  }

  lemma BeyondRow(x: Runes, z: Runes, n: nat, low: int)
    requires n <= |x| && forall j :: 0 <= j <= |z| ==> low <= Row(x, z, n)[j]
    ensures low <= Distance(x, z)
  {
    forall j | 0 <= j <= |z| ensures low <= Distance(x[..n], z[..j]) {
      assert Row(x, z, n)[j] == Distance(x[..n], z[..j]);
    }
    RowMinimum(x, z, n, low);
  }
}
