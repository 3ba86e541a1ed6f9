/** Reordering a path does not show: when every visible name is ordered by id, rows that tie look
    the same, so the rendered list is the same whatever order the patterns ran in. */
module PatternRendering {

  import opened Orders
  import opened Numbers
  import opened Values
  import opened Graphs
  import opened Sums
  import opened Patterns
  import opened PatternResults
  import opened PatternOrder
  import Ordering
  import TopK

  // Sorting two arrangements of the same rows.

  ghost predicate Tied<R>(le: (R, R) -> bool, x: R, y: R) { le(x, y) && le(y, x) }

  lemma TiedTrans<R(!new)>(le: (R, R) -> bool, x: R, y: R, z: R)
    requires TotalPreorder(le) && Tied(le, x, y) && Tied(le, y, z)
    ensures Tied(le, x, z)
  {
    Transitivity(le, x, y, z);
    Transitivity(le, z, y, x);
  }

  ghost predicate TiedThroughout<R>(le: (R, R) -> bool, a: seq<R>, b: seq<R>) {
    |a| == |b| && forall i :: 0 <= i < |a| ==> Tied(le, a[i], b[i])
  }

  /** Everything up to an occurrence of a least element ties with it. */
  lemma TiedUpTo<R(!new)>(le: (R, R) -> bool, a: seq<R>, b: seq<R>, k: nat, i: nat)
    requires TotalPreorder(le) && Sorted(le, a) && Sorted(le, b) && multiset(a) == multiset(b)
    requires b != [] && i <= k < |a| && a[k] == b[0]
    ensures Tied(le, a[i], b[0])
  {
    Totality(le, b[0], b[0]);
    assert a[i] in multiset(b);
    var j :| 0 <= j < |b| && b[j] == a[i];
  }

  lemma WithoutAt<R>(a: seq<R>, b: seq<R>, k: nat, rest: seq<R>)
    requires b != [] && k < |a| && a[k] == b[0] && multiset(a) == multiset(b) && rest == a[..k] + a[k + 1..]
    ensures multiset(rest) == multiset(b[1..])
  {
    assert a == a[..k] + [a[k]] + a[k + 1..];
    TailElements(b);
    assert multiset(a) == multiset{b[0]} + multiset(rest);
    CancelOne(b[0], multiset(rest), multiset(b[1..]));
  }

  lemma SortedWithout<R>(le: (R, R) -> bool, a: seq<R>, k: nat)
    requires Sorted(le, a) && k < |a|
    ensures Sorted(le, a[..k] + a[k + 1..])
  {
  }

  /** Two sorted arrangements of the same rows tie position by position. */
  lemma {:induction false} SortedTie<R(!new)>(le: (R, R) -> bool, a: seq<R>, b: seq<R>)
    requires TotalPreorder(le) && Sorted(le, a) && Sorted(le, b) && multiset(a) == multiset(b)
    ensures TiedThroughout(le, a, b)
    decreases |b|
  {
    assert |a| == |multiset(a)| == |multiset(b)| == |b|;
    if b != [] {
      assert b[0] in multiset(a);
      var k :| 0 <= k < |a| && a[k] == b[0];
      var rest := a[..k] + a[k + 1..];
      WithoutAt(a, b, k, rest);
      SortedWithout(le, a, k);
      SortedTie(le, rest, b[1..]);
      forall i | 0 <= i < |a| ensures Tied(le, a[i], b[i]) { TieAt(le, a, b, k, rest, i); }
    }
  }

  lemma TieAt<R(!new)>(le: (R, R) -> bool, a: seq<R>, b: seq<R>, k: nat, rest: seq<R>, i: nat)
    requires TotalPreorder(le) && Sorted(le, a) && Sorted(le, b) && multiset(a) == multiset(b) && b != []
    requires k < |a| == |b| && a[k] == b[0] && rest == a[..k] + a[k + 1..] && TiedThroughout(le, rest, b[1..]) && i < |a|
    ensures Tied(le, a[i], b[i])
  {
    if i == 0 {
      TiedUpTo(le, a, b, k, 0);
    } else {
      assert Tied(le, rest[i - 1], b[1..][i - 1]);
      if i <= k {
        TiedUpTo(le, a, b, k, i);
        TiedUpTo(le, a, b, k, i - 1);
        TiedTrans(le, a[i], b[0], a[i - 1]);
        TiedTrans(le, a[i], a[i - 1], b[i]);
      }
    }
  }

  function Rendered<R, V>(render: R -> V, rows: seq<R>): seq<V> {
    seq(|rows|, i requires 0 <= i < |rows| => render(rows[i]))
  }

  /** If tied rows render alike, sorting any arrangement of the same rows renders alike. */
  lemma SameRendering<R(!new), V>(le: (R, R) -> bool, render: R -> V, x: seq<R>, y: seq<R>)
    requires TotalPreorder(le) && multiset(x) == multiset(y)
    requires forall r, s :: r in multiset(x) && s in multiset(x) && Tied(le, r, s) ==> render(r) == render(s)
    ensures Rendered(render, SortBy(le, x)) == Rendered(render, SortBy(le, y))
  {
    var a, b := SortBy(le, x), SortBy(le, y);
    SortBySorts(le, x);
    SortBySorts(le, y);
    SortByElements(le, x);
    SortByElements(le, y);
    SortedTie(le, a, b);
    forall i | 0 <= i < |a| ensures render(a[i]) == render(b[i]) {
      assert a[i] in multiset(a) && b[i] in multiset(b);
    }
  }

  // Rows of a pattern list bind every name, to the right kind of entity.

  /** Every end is bound to a node, every named edge to an edge. */
  ghost predicate Bound(ps: seq<Pattern>, row: Row) {
    forall i :: 0 <= i < |ps| ==> BoundBy(ps[i], row)
  }

  ghost predicate BoundBy(p: Pattern, row: Row) {
    p.Edge? ==>
      && (p.left.name != "" ==> IsNode(row, p.left.name))
      && (p.right.name != "" ==> IsNode(row, p.right.name))
      && (p.name != "" ==> p.name in row && row[p.name].EdgeRef? && row[p.name].id < LIMIT)
  }

  predicate IsNode(row: Row, name: string) { name in row && row[name].NodeRef? && row[name].id < LIMIT }

  /** Entity ids are positive signed 64-bit integers. */
  ghost predicate EntityIDs(g: Graph) {
    (forall n :: n in g.nodes ==> n < LIMIT) && (forall e :: e in g.edges ==> e < LIMIT)
  }

  lemma {:induction false} InSum<A(!new), B>(f: A -> multiset<B>, s: seq<A>, y: B) returns (x: A)
    requires y in Sum(f, s)
    ensures y in f(x)
  {
    if y in f(s[0]) {
      x := s[0];
    } else {
      x := InSum(f, s[1..], y);
    }
  }

  lemma SolutionBinds(g: Graph, p: Pattern, c: Candidate, row: Row)
    requires EntityIDs(g) && Roles(p) && Qualifies(g, p, c)
    ensures BoundBy(p, row + Solution(g, p, c))
    ensures forall name :: name in Solution(g, p, c) ==> name in Names(p)
  {
    if p.Edge? {
      var s := Solution(g, p, c);
      assert p.left.name != "" ==> p.left.name in s && s[p.left.name].NodeRef?;
      assert p.right.name != "" ==> p.right.name in s && s[p.right.name].NodeRef?;
    }
  }

  /** The names a row may bind: those it started with and those of the patterns. */
  function AllNames(ps: seq<Pattern>): set<string> {
    if ps == [] then {} else Names(ps[0]) + AllNames(ps[1..])
  }

  ghost predicate Extends(row: Row, names: set<string>, out: Row) {
    (forall name :: name in row ==> name in out && out[name] == row[name])
    && (forall name :: name in out ==> name in row || name in names)
  }

  lemma {:induction false} ResultsBind(g: Graph, ps: seq<Pattern>, row: Row, out: Row)
    requires EntityIDs(g) && AllRoles(ps) && out in Results(g, ps, row)
    ensures Bound(ps, out) && Extends(row, AllNames(ps), out)
    decreases |ps|
  {
    if ps != [] {
      var p, rest := ps[0], ps[1..];
      var s := FirstStep(g, p, rest, row, out, ps);
      ResultsBind(g, rest, row + s, out);
      Steps(row, s, AllNames(rest), Names(p), out);
      BoundExtends(p, row + s, AllNames(rest), out);
      BoundAll(ps, out);
    }
  }

  /** A result goes through some solution of the first pattern. */
  lemma FirstStep(g: Graph, p: Pattern, rest: seq<Pattern>, row: Row, out: Row, ps: seq<Pattern>) returns (s: Row)
    requires EntityIDs(g) && Roles(p) && ps != [] && p == ps[0] && rest == ps[1..] && out in Results(g, ps, row)
    ensures Compatible(row, s) && out in Results(g, rest, row + s) && BoundBy(p, row + s)
    ensures forall name :: name in s ==> name in Names(p)
  {
    assert ps == [p] + rest;
    var c := InSum(Step(g, [p] + rest, row), Candidates(g), out);
    StepUnfolds(g, p, rest, row, c);
    s := Solution(g, p, c);
    SolutionBinds(g, p, c, row);
  }

  lemma BoundAll(ps: seq<Pattern>, out: Row)
    requires ps != [] && BoundBy(ps[0], out) && Bound(ps[1..], out)
    ensures Bound(ps, out)
  {
    forall i | 0 <= i < |ps| ensures BoundBy(ps[i], out) {
      if i > 0 { assert ps[i] == ps[1..][i - 1]; }
    }
  }

  lemma Steps(row: Row, s: Row, later: set<string>, names: set<string>, out: Row)
    requires Compatible(row, s) && Extends(row + s, later, out) && forall name :: name in s ==> name in names
    ensures Extends(row, names + later, out)
  {
    forall name | name in row ensures name in out && out[name] == row[name] { assert name in row + s; }
  }

  lemma BoundExtends(p: Pattern, row: Row, names: set<string>, out: Row)
    requires BoundBy(p, row) && Extends(row, names, out)
    ensures BoundBy(p, out)
  {
  }

  // Ordering by ids.

  /** ORDER BY id(name) or any other value. */
  datatype OrderBy = ByID(name: string, down: bool) | ByValue(value: Row -> Value, down: bool)

  /** The id as the engine orders it: a signed 64-bit integer, zero for other values. */
  function IDValue(name: string): Row -> Value {
    (row: Row) => if name !in row then Null else if row[name].Other? || row[name].id >= LIMIT then Integer(0) else Integer(row[name].id)
  }

  function ClauseOf(o: OrderBy): Ordering.Clause<Row> {
    match o
    case ByID(name, down) => Ordering.Clause(IDValue(name), down)
    case ByValue(value, down) => Ordering.Clause(value, down)
  }

  function ClausesOf(order: seq<OrderBy>): seq<Ordering.Clause<Row>> {
    seq(|order|, i requires 0 <= i < |order| => ClauseOf(order[i]))
  }

  function IDNames(order: seq<OrderBy>): set<string> {
    set i | 0 <= i < |order| && order[i].ByID? :: order[i].name
  }

  lemma {:induction false} TieInEveryClause(clauses: seq<Ordering.Clause<Row>>, id: Row -> nat, x: Row, y: Row, i: nat)
    requires Ordering.CompareRows(clauses, id, x, y) == 0 && i < |clauses|
    ensures Compare(clauses[i].value(x), clauses[i].value(y)) == 0
  {
    if i > 0 { TieInEveryClause(clauses[1..], id, x, y, i - 1); }
  }

  /** The part of a row the query can show. */
  function VisiblePart(row: Row): Row { map name | name in row && Visible(name) :: row[name] }

  lemma {:induction false} NameOwner(ps: seq<Pattern>, name: string) returns (i: nat)
    requires name in AllNames(ps)
    ensures i < |ps| && name in Names(ps[i])
  {
    if name in Names(ps[0]) {
      i := 0;
    } else {
      var j := NameOwner(ps[1..], name);
      i := j + 1;
    }
  }

  lemma SameBinding(ps: seq<Pattern>, order: seq<OrderBy>, id: Row -> nat, x: Row, y: Row, name: string)
    requires PathIsTotal(ps, IDNames(order)) && Bound(ps, x) && Bound(ps, y) && name in AllNames(ps) && Visible(name)
    requires Ordering.CompareRows(ClausesOf(order), id, x, y) == 0
    ensures name in x && name in y && x[name] == y[name]
  {
    var k := NameOwner(ps, name);
    assert BoundBy(ps[k], x) && BoundBy(ps[k], y);
    var i :| 0 <= i < |order| && order[i].ByID? && order[i].name == name;
    TieInEveryClause(ClausesOf(order), id, x, y, i);
    assert ClausesOf(order)[i].value == IDValue(name);
  }

  /** Rows of a path that tie look the same. */
  lemma TiesLookAlike(g: Graph, ps: seq<Pattern>, order: seq<OrderBy>, id: Row -> nat, x: Row, y: Row)
    requires EntityIDs(g) && AllRoles(ps) && PathIsTotal(ps, IDNames(order))
    requires x in Results(g, ps, map[]) && y in Results(g, ps, map[])
    requires Ordering.CompareRows(ClausesOf(order), id, x, y) == 0
    ensures VisiblePart(x) == VisiblePart(y)
  {
    ResultsBind(g, ps, map[], x);
    ResultsBind(g, ps, map[], y);
    forall name | (name in x || name in y) && Visible(name) ensures name in x && name in y && x[name] == y[name] {
      SameBinding(ps, order, id, x, y, name);
    }
  }

  ghost predicate ShowsOnlyVisible<V>(render: Row -> V) {
    forall x: Row, y: Row :: VisiblePart(x) == VisiblePart(y) ==> render(x) == render(y)
  }

  /** When the patterns are edges whose visible names are all ordered by id, running them in any
      planned order gives the identical rendered list. */
  lemma SameRenderedList<V>(g: Graph, ps: seq<Pattern>, planned: seq<Pattern>, order: seq<OrderBy>, id: Row -> nat, render: Row -> V, x: seq<Row>, y: seq<Row>)
    requires EntityIDs(g) && AllRoles(ps) && PathIsTotal(ps, IDNames(order)) && Same(g, planned, ps) && ShowsOnlyVisible(render)
    requires multiset(x) == Results(g, ps, map[]) && multiset(y) == Results(g, planned, map[])
    ensures var le := TopK.RowLe(Ordering.RowComparison(ClausesOf(order), id));
            Rendered(render, SortBy(le, x)) == Rendered(render, SortBy(le, y))
  {
    var c := Ordering.RowComparison(ClausesOf(order), id);
    var le := TopK.RowLe(c);
    Ordering.RowsAreOrdered(ClausesOf(order), id);
    assert Results(g, planned, map[]) == Results(g, ps, map[]);
    forall r, s | r in multiset(x) && s in multiset(x) && Tied(le, r, s) ensures render(r) == render(s) {
      assert c(r, s) < 0 <==> 0 < c(s, r);
      assert c(s, r) < 0 <==> 0 < c(r, s);
      TiesLookAlike(g, ps, order, id, r, s);
    }
    SameRendering(le, render, x, y);
  }
}
