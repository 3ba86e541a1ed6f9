/** The planner: components of patterns by estimated size, paths from their most selective node. */
module PatternOrder {

  import opened Orders
  import opened Graphs
  import opened Sums
  import opened Patterns
  import opened PatternResults

  datatype Component = Component(patterns: seq<Pattern>, estimate: nat, first: nat)

  function PatternsOf(): Component -> multiset<Pattern> { (c: Component) => multiset(c.patterns) }

  function Content(cs: seq<Component>): multiset<Pattern> { Sum(PatternsOf(), cs) }

  function Named(name: string): set<string> { if name == "" then {} else {name} }

  function Names(p: Pattern): set<string> {
    match p
    case Vertex(node) => Named(node.name)
    case Edge(left, right, name, _, _, _) => Named(left.name) + Named(name) + Named(right.name)
  }

  predicate Overlap(p: Pattern, q: Pattern) { Names(p) * Names(q) != {} }

  method Overlapping(a: seq<Pattern>, b: seq<Pattern>) returns (r: bool)
    ensures r <==> exists i, j :: 0 <= i < |a| && 0 <= j < |b| && Overlap(a[i], b[j])
  {
    r := false;
    for i := 0 to |a|
      invariant r <==> exists k, l :: 0 <= k < i && 0 <= l < |b| && Overlap(a[k], b[l])
    {
      for j := 0 to |b|
        invariant r <==> (exists k, l :: 0 <= k < i && 0 <= l < |b| && Overlap(a[k], b[l])) || (exists l :: 0 <= l < j && Overlap(a[i], b[l]))
      {
        r := r || Overlap(a[i], b[j]);
      }
    }
  }

  lemma MergeKeepsContent(cs: seq<Component>, i: nat, j: nat, merged: Component)
    requires i < j < |cs| && multiset(merged.patterns) == multiset(cs[i].patterns) + multiset(cs[j].patterns)
    ensures Content(cs[..i] + [merged] + cs[i + 1..j] + cs[j + 1..]) == Content(cs)
  {
    var f, a, b, c := PatternsOf(), cs[..i], cs[i + 1..j], cs[j + 1..];
    assert cs == a + ([cs[i]] + (b + ([cs[j]] + c)));
    SumMiddle(f, a, cs[i], b + ([cs[j]] + c));
    assert a + (b + ([cs[j]] + c)) == (a + b) + ([cs[j]] + c);
    SumMiddle(f, a + b, cs[j], c);
    assert a + [merged] + b + c == a + ([merged] + (b + c));
    SumMiddle(f, a, merged, b + c);
    assert a + (b + c) == (a + b) + c;
  }

  /** Merge every later component that overlaps component i into it. */
  method Absorb(cs: seq<Component>, i: nat) returns (r: seq<Component>)
    requires i < |cs|
    ensures i < |r| <= |cs| && Content(r) == Content(cs)
  {
    r := cs;
    var j := i + 1;
    while j < |r|
      invariant i < j <= |r| <= |cs| && Content(r) == Content(cs)
      decreases |r| - j
    {
      var overlap := Overlapping(r[i].patterns, r[j].patterns);
      if overlap {
        var merged := r[i].(patterns := r[i].patterns + r[j].patterns);
        MergeKeepsContent(r, i, j, merged);
        r := r[..i] + [merged] + r[i + 1..j] + r[j + 1..];
      } else {
        j := j + 1;
      }
    }
  }

  method Components(ps: seq<Pattern>) returns (cs: seq<Component>)
    ensures Content(cs) == multiset(ps)
  {
    cs := [];
    for n := 0 to |ps|
      invariant Content(cs) == multiset(ps[..n])
    {
      SumConcat(PatternsOf(), cs, [Component([ps[n]], 0, n)]);
      assert ps[..n + 1] == ps[..n] + [ps[n]];
      cs := cs + [Component([ps[n]], 0, n)];
    }
    assert ps[..|ps|] == ps;
    var i := 0;
    while i < |cs|
      invariant i <= |cs| && Content(cs) == multiset(ps)
    {
      cs := Absorb(cs, i);
      i := i + 1;
    }
  }

  /** The smallest estimate of a component's patterns, at most `cap`. */
  method Estimate(estimate: Pattern -> nat, patterns: seq<Pattern>, cap: nat) returns (e: nat)
    ensures e <= cap && (forall i :: 0 <= i < |patterns| ==> e <= estimate(patterns[i]))
    ensures e == cap || exists i :: 0 <= i < |patterns| && e == estimate(patterns[i])
  {
    e := cap;
    for i := 0 to |patterns|
      invariant e <= cap && (forall j :: 0 <= j < i ==> e <= estimate(patterns[j]))
      invariant e == cap || exists j :: 0 <= j < i && e == estimate(patterns[j])
    {
      if estimate(patterns[i]) < e {
        e := estimate(patterns[i]);
      }
    }
  }

  predicate Before(x: Component, y: Component) {
    x.estimate < y.estimate || (x.estimate == y.estimate && x.first <= y.first)
  }

  ghost predicate SortedTo(cs: seq<Component>, n: nat) {
    n <= |cs| && forall i, j :: 0 <= i < j < n ==> Before(cs[i], cs[j])
  }

  lemma HoleMoves(cs: seq<Component>, p: nat, x: Component)
    requires 0 < p < |cs|
    ensures multiset(cs[p := cs[p - 1]][p - 1 := x]) == multiset(cs[p := x])
  {
    var a, b, y := cs[..p - 1], cs[p + 1..], cs[p - 1];
    assert cs[p := y][p - 1 := x] == a + [x, y] + b;
    assert cs[p := x] == a + [y, x] + b;
    Exchanged(a, x, y, b);
  }

  lemma Exchanged<T>(a: seq<T>, x: T, y: T, b: seq<T>)
    ensures multiset(a + [x, y] + b) == multiset(a + [y, x] + b)
  {
    assert multiset([x, y]) == multiset([y, x]);
  }

  /** The hole at p is for x: everything up to n is in order around it. */
  ghost predicate Holed(cs: seq<Component>, n: nat, p: nat, x: Component) {
    && p <= n < |cs|
    && (forall i, j :: 0 <= i < j <= n && i != p && j != p ==> Before(cs[i], cs[j]))
    && (forall j :: p < j <= n ==> Before(x, cs[j]))
  }

  lemma HoleSinks(cs: seq<Component>, n: nat, p: nat, x: Component)
    requires Holed(cs, n, p, x) && 0 < p && !Before(cs[p - 1], x)
    ensures Holed(cs[p := cs[p - 1]], n, p - 1, x)
  {
    var after := cs[p := cs[p - 1]];
    assert Before(x, cs[p - 1]);
    forall i, j | 0 <= i < j <= n && i != p - 1 && j != p - 1 ensures Before(after[i], after[j]) {
      if i == p {
        assert Before(cs[p - 1], cs[j]);
      } else if j == p {
        assert Before(cs[i], cs[p - 1]);
      }
    }
    forall j | p - 1 < j <= n ensures Before(x, after[j]) { }
  }

  /** Put x into the hole: in order after everything not before it. */
  method InsertComponent(cs: seq<Component>, n: nat) returns (r: seq<Component>)
    requires n < |cs| && SortedTo(cs, n)
    ensures multiset(r) == multiset(cs) && |r| == |cs| && SortedTo(r, n + 1)
  {
    var current, p := cs[n], n;
    r := cs;
    assert cs[n := current] == cs;
    while p > 0 && !Before(r[p - 1], current)
      invariant |r| == |cs| && Holed(r, n, p, current) && multiset(r[p := current]) == multiset(cs)
    {
      HoleSinks(r, n, p, current);
      HoleMoves(r, p, current);
      r := r[p := r[p - 1]];
      p := p - 1;
    }
    HoleFilled(r, n, p, current);
    r := r[p := current];
  }

  lemma HoleFilled(cs: seq<Component>, n: nat, p: nat, x: Component)
    requires Holed(cs, n, p, x) && (p > 0 ==> Before(cs[p - 1], x))
    ensures SortedTo(cs[p := x], n + 1)
  {
    var after := cs[p := x];
    forall i, j | 0 <= i < j < n + 1 ensures Before(after[i], after[j]) {
      if j == p && i < p - 1 { assert Before(cs[i], cs[p - 1]); }
    }
  }

  method SortComponents(cs: seq<Component>) returns (r: seq<Component>)
    ensures multiset(r) == multiset(cs) && SortedTo(r, |r|)
  {
    r := cs;
    for n := 0 to |cs|
      invariant |r| == |cs| && multiset(r) == multiset(cs) && SortedTo(r, n)
    {
      r := InsertComponent(r, n);
    }
  }

  // Paths.

  /** Names the query does not show start with a zero character. */
  predicate Visible(name: string) { name != "" && name[0] != '\0' }

  /** Every visible name of every pattern is among the names ordered by id. */
  predicate PathIsTotal(ps: seq<Pattern>, ids: set<string>) {
    forall i :: 0 <= i < |ps| ==> ps[i].Edge? && forall name :: name in Names(ps[i]) && Visible(name) ==> name in ids
  }

  /** The first pattern of every named node, and how many ends have the name. */
  datatype PathNodes = PathNodes(nodes: map<string, NodePattern>, order: seq<string>, degree: map<string, nat>)

  ghost predicate FromEnds(ps: seq<Pattern>, nodes: map<string, NodePattern>, order: seq<string>) {
    && (forall name :: name in nodes ==> Anchored(ps, nodes[name]))
    && (forall i :: 0 <= i < |order| ==> order[i] in nodes)
    && |order| == |nodes|
  }

  function AddEnd(path: PathNodes, np: NodePattern): PathNodes {
    var degree := (if np.name in path.degree then path.degree[np.name] else 0) + 1;
    if np.name in path.nodes then path.(degree := path.degree[np.name := degree])
    else PathNodes(path.nodes[np.name := np], path.order + [np.name], path.degree[np.name := degree])
  }

  lemma AddEndKeeps(ps: seq<Pattern>, path: PathNodes, np: NodePattern, i: nat)
    requires FromEnds(ps, path.nodes, path.order) && i < |ps| && Anchors(ps[i], np)
    ensures FromEnds(ps, AddEnd(path, np).nodes, AddEnd(path, np).order)
  {
    var after := AddEnd(path, np);
    assert Anchored(ps, np);
    if np.name !in path.nodes {
      assert after.nodes.Keys == path.nodes.Keys + {np.name};
      assert |after.nodes| == |after.nodes.Keys| && |path.nodes| == |path.nodes.Keys|;
    }
  }

  /** Collect the named ends of the edges; fail on anything else. */
  method CollectEnds(ps: seq<Pattern>) returns (ok: bool, path: PathNodes)
    requires AllRoles(ps)
    ensures ok ==> FromEnds(ps, path.nodes, path.order)
  {
    path := PathNodes(map[], [], map[]);
    for i := 0 to |ps|
      invariant FromEnds(ps, path.nodes, path.order)
    {
      if !ps[i].Edge? || ps[i].left.name == "" || ps[i].right.name == "" {
        return false, path;
      }
      assert Anchors(ps[i], ps[i].left) && Anchors(ps[i], ps[i].right);
      AddEndKeeps(ps, path, ps[i].left, i);
      AddEndKeeps(ps, AddEnd(path, ps[i].left), ps[i].right, i);
      path := AddEnd(AddEnd(path, ps[i].left), ps[i].right);
    }
    ok := true;
  }

  /** A path has one more node than edges and no node with more than two ends. */
  predicate IsPath(path: PathNodes, edges: nat) {
    edges > 0 && |path.nodes| == edges + 1
    && forall i :: 0 <= i < |path.order| ==> path.order[i] in path.degree && 0 < path.degree[path.order[i]] <= 2
  }

  datatype Cost = Cost(rows: nat, degree: nat)

  predicate Cheaper(a: Cost, b: Cost) { a.rows < b.rows || (a.rows == b.rows && a.degree < b.degree) }

  method ChooseSeed(path: PathNodes, cost: NodePattern -> Cost, ghost ps: seq<Pattern>) returns (seed: NodePattern)
    requires FromEnds(ps, path.nodes, path.order) && path.order != []
    ensures Anchored(ps, seed)
    ensures forall i :: 0 <= i < |path.order| ==> !Cheaper(cost(path.nodes[path.order[i]]), cost(seed))
  {
    seed := path.nodes[path.order[0]];
    for i := 1 to |path.order|
      invariant Anchored(ps, seed)
      invariant forall j :: 0 <= j < i ==> !Cheaper(cost(path.nodes[path.order[j]]), cost(seed))
    {
      var np := path.nodes[path.order[i]];
      if Cheaper(cost(np), cost(seed)) {
        seed := np;
      }
    }
  }

  /** The patterns whose flag is not set, among the first n. */
  ghost function Unused(ps: seq<Pattern>, used: seq<bool>, n: nat): multiset<Pattern>
    requires n <= |ps| == |used|
  {
    if n == 0 then multiset{} else Unused(ps, used, n - 1) + if used[n - 1] then multiset{} else multiset{ps[n - 1]}
  }

  lemma {:induction false} UnusedAtFirst(ps: seq<Pattern>, used: seq<bool>, n: nat)
    requires n <= |ps| == |used| && forall i :: 0 <= i < |used| ==> !used[i]
    ensures Unused(ps, used, n) == multiset(ps[..n])
  {
    if n > 0 {
      UnusedAtFirst(ps, used, n - 1);
      assert ps[..n] == ps[..n - 1] + [ps[n - 1]];
    }
  }

  lemma {:induction false} UseOne(ps: seq<Pattern>, used: seq<bool>, n: nat, k: nat)
    requires n <= |ps| == |used| && k < |ps| && !used[k]
    ensures Unused(ps, used, n) == Unused(ps, used[k := true], n) + if k < n then multiset{ps[k]} else multiset{}
  {
    if n > 0 {
      UseOne(ps, used, n - 1, k);
      var rest, now := Unused(ps, used[k := true], n - 1), if k < n - 1 then multiset{ps[k]} else multiset{};
      var last := if used[n - 1] || k == n - 1 then multiset{} else multiset{ps[n - 1]};
      assert Unused(ps, used[k := true], n) == rest + last;
      Regroup(rest, now, last);
    }
  }

  lemma Regroup<T>(a: multiset<T>, b: multiset<T>, c: multiset<T>)
    ensures (a + b) + c == (a + c) + b
  {
  }

  lemma SameSizes<T>(a: multiset<T>, b: multiset<T>, c: multiset<T>, d: multiset<T>)
    requires a + b == c + d
    ensures |a| + |b| == |c| + |d|
  {
    assert |a + b| == |a| + |b| && |c + d| == |c| + |d|;
  }

  predicate Reached(p: Pattern, bound: set<string>)
    requires p.Edge?
  {
    p.left.name in bound || p.right.name in bound
  }

  /** The cheapest unused edge with an end already bound; none when candidate is negative. */
  method NextEdge(ps: seq<Pattern>, estimate: Pattern -> nat, used: seq<bool>, bound: set<string>) returns (candidate: int)
    requires |used| == |ps| && forall i :: 0 <= i < |ps| ==> ps[i].Edge?
    ensures candidate >= 0 ==> candidate < |ps| && !used[candidate] && Reached(ps[candidate], bound)
    ensures candidate < 0 ==> forall i :: 0 <= i < |ps| && !used[i] ==> !Reached(ps[i], bound)
    ensures candidate >= 0 ==> forall i :: 0 <= i < |ps| && !used[i] && Reached(ps[i], bound) ==> estimate(ps[candidate]) <= estimate(ps[i])
  {
    candidate := -1;
    for i := 0 to |ps|
      invariant candidate < i
      invariant candidate >= 0 ==> !used[candidate] && Reached(ps[candidate], bound)
      invariant forall j :: 0 <= j < i && !used[j] && Reached(ps[j], bound) ==> candidate >= 0 && estimate(ps[candidate]) <= estimate(ps[j])
    {
      if used[i] || !Reached(ps[i], bound) {
        continue;
      }
      if candidate < 0 || estimate(ps[i]) < estimate(ps[candidate]) {
        candidate := i;
      }
    }
  }

  /** Every edge of the list has an end named earlier in it. */
  ghost predicate Connected(ordered: seq<Pattern>) {
    forall i :: 0 < i < |ordered| && ordered[i].Edge? ==> TouchesEarlier(ordered, i)
  }

  ghost predicate TouchesEarlier(ordered: seq<Pattern>, i: nat)
    requires i < |ordered| && ordered[i].Edge?
  {
    exists k :: 0 <= k < i && (ordered[i].left.name in Ends(ordered[k]) || ordered[i].right.name in Ends(ordered[k]))
  }

  function Ends(p: Pattern): set<string> {
    if p.Vertex? then {p.node.name} else {p.left.name, p.right.name}
  }

  /** Every name bound is an end of a pattern so far. */
  ghost predicate BoundBy(ordered: seq<Pattern>, bound: set<string>) {
    forall name :: name in bound ==> exists k :: 0 <= k < |ordered| && name in Ends(ordered[k])
  }

  lemma AppendConnected(ordered: seq<Pattern>, bound: set<string>, p: Pattern)
    requires Connected(ordered) && BoundBy(ordered, bound) && p.Edge? && Reached(p, bound)
    ensures Connected(ordered + [p]) && BoundBy(ordered + [p], bound + Ends(p))
  {
    var more := ordered + [p];
    forall i | 0 < i < |more| && more[i].Edge? ensures TouchesEarlier(more, i) {
      if i < |ordered| {
        assert TouchesEarlier(ordered, i);
        var k :| 0 <= k < i && (ordered[i].left.name in Ends(ordered[k]) || ordered[i].right.name in Ends(ordered[k]));
        assert more[k] == ordered[k];
      } else {
        var name := if p.left.name in bound then p.left.name else p.right.name;
        var k :| 0 <= k < |ordered| && name in Ends(ordered[k]);
        assert more[k] == ordered[k];
      }
    }
    forall name | name in bound + Ends(p) ensures exists k :: 0 <= k < |more| && name in Ends(more[k]) {
      if name in Ends(p) {
        assert more[|ordered|] == p;
      } else {
        var k :| 0 <= k < |ordered| && name in Ends(ordered[k]);
        assert more[k] == ordered[k];
      }
    }
  }

  /** Walk the path from the seed, always along the cheapest edge at hand. */
  method WalkPath(ps: seq<Pattern>, estimate: Pattern -> nat, seed: NodePattern) returns (ok: bool, ordered: seq<Pattern>)
    requires forall i :: 0 <= i < |ps| ==> ps[i].Edge?
    ensures ok ==> multiset(ordered) == multiset(ps) + multiset{Vertex(seed)} && Connected(ordered)
  {
    ordered := [Vertex(seed)];
    var bound, used := {seed.name}, seq(|ps|, i => false);
    UnusedAtFirst(ps, used, |ps|);
    assert ps[..|ps|] == ps;
    assert BoundBy(ordered, bound) by { assert seed.name in Ends(ordered[0]); }
    ghost var left := multiset(ps);
    for n := 0 to |ps|
      invariant |used| == |ps| && |ordered| == n + 1
      invariant left == Unused(ps, used, |ps|) && multiset(ordered) + left == multiset(ps) + multiset{Vertex(seed)}
      invariant Connected(ordered) && BoundBy(ordered, bound)
    {
      var candidate := NextEdge(ps, estimate, used, bound);
      if candidate < 0 {
        return false, ordered;
      }
      var edge := ps[candidate];
      UseOne(ps, used, |ps|, candidate);
      AppendConnected(ordered, bound, edge);
      used := used[candidate := true];
      left := Unused(ps, used, |ps|);
      bound := bound + Ends(edge);
      ordered := ordered + [edge];
    }
    SameSizes(multiset(ordered), left, multiset(ps), multiset{Vertex(seed)});
    assert |multiset(ordered)| == |ordered| && |multiset(ps)| == |ps|;
    ok := true;
  }

  /** Order a path of edges from its most selective node, when the result order hides the
      difference and the seed is worth it. */
  method OrderPath(ps: seq<Pattern>, ids: set<string>, dynamic: bool, estimate: Pattern -> nat, cost: NodePattern -> Cost)
    returns (ordered: seq<Pattern>, reordered: bool, ghost seeds: seq<NodePattern>)
    requires AllRoles(ps)
    ensures reordered ==> PathIsTotal(ps, ids) && Connected(ordered)
    ensures multiset(ordered) == multiset(ps) + multiset(Vertices(seeds))
    ensures forall i :: 0 <= i < |seeds| ==> Anchored(ps, seeds[i])
    ensures !reordered ==> ordered == ps
  {
    ordered, reordered, seeds := ps, false, [];
    if !PathIsTotal(ps, ids) || dynamic {
      return;
    }
    var ok, path := CollectEnds(ps);
    if !ok || !IsPath(path, |ps|) {
      return;
    }
    var seed := ChooseSeed(path, cost, ps);
    if cost(seed).rows >= estimate(ps[0]) {
      return;
    }
    var walked;
    ok, walked := WalkPath(ps, estimate, seed);
    if !ok {
      return;
    }
    assert Vertices([seed]) == [Vertex(seed)];
    return walked, true, [seed];
  }

  lemma MoreAnchors(ps: seq<Pattern>, all: multiset<Pattern>, qs: seq<Pattern>, np: NodePattern)
    requires Anchored(ps, np) && multiset(ps) <= all && all == multiset(qs)
    ensures Anchored(qs, np)
  {
    var k :| 0 <= k < |ps| && Anchors(ps[k], np);
    assert ps[k] in multiset(ps);
    assert ps[k] in multiset(qs);
    var l :| 0 <= l < |qs| && qs[l] == ps[k];
  }

  method Estimated(cs: seq<Component>, estimate: Pattern -> nat, cap: nat) returns (r: seq<Component>)
    ensures |r| == |cs| && Content(r) == Content(cs)
  {
    r := [];
    for i := 0 to |cs|
      invariant |r| == i && Content(r) == Content(cs[..i])
    {
      var e := Estimate(estimate, cs[i].patterns, cap);
      SumConcat(PatternsOf(), r, [cs[i].(estimate := e)]);
      SumSnoc(PatternsOf(), cs, i);
      r := r + [cs[i].(estimate := e)];
    }
    assert cs[..|cs|] == cs;
  }

  ghost predicate AllAnchored(ps: seq<Pattern>, seeds: seq<NodePattern>) {
    forall i :: 0 <= i < |seeds| ==> Anchored(ps, seeds[i])
  }

  lemma ComponentIsPart(cs: seq<Component>, i: nat)
    requires i < |cs|
    ensures multiset(cs[i].patterns) <= Content(cs)
  {
    assert cs == cs[..i] + ([cs[i]] + cs[i + 1..]);
    SumMiddle(PatternsOf(), cs[..i], cs[i], cs[i + 1..]);
  }

  lemma PartRoles(part: seq<Pattern>, ps: seq<Pattern>)
    requires AllRoles(ps) && multiset(part) <= multiset(ps)
    ensures AllRoles(part)
  {
    forall i | 0 <= i < |part| ensures Roles(part[i]) {
      assert part[i] in multiset(part);
      assert part[i] in multiset(ps);
      var l :| 0 <= l < |ps| && ps[l] == part[i];
    }
  }

  /** The ordered patterns are the given ones and the seeds. */
  ghost predicate Planned(ordered: seq<Pattern>, content: multiset<Pattern>, seeds: seq<NodePattern>) {
    multiset(ordered) == content + multiset(Vertices(seeds))
  }

  lemma PlanMore(ordered: seq<Pattern>, content: multiset<Pattern>, seeds: seq<NodePattern>, path: seq<Pattern>, part: multiset<Pattern>, more: seq<NodePattern>)
    requires Planned(ordered, content, seeds) && Planned(path, part, more)
    ensures Planned(ordered + path, content + part, seeds + more)
  {
    assert Vertices(seeds + more) == Vertices(seeds) + Vertices(more);
  }

  method OrderComponents(cs: seq<Component>, ps: seq<Pattern>, ids: set<string>, dynamic: Pattern -> bool, estimate: Pattern -> nat, cost: NodePattern -> Cost)
    returns (ordered: seq<Pattern>, ghost seeds: seq<NodePattern>)
    requires AllRoles(ps) && Content(cs) == multiset(ps)
    ensures Planned(ordered, multiset(ps), seeds) && AllAnchored(ps, seeds)
  {
    ordered, seeds := [], [];
    ghost var content: multiset<Pattern> := multiset{};
    for i := 0 to |cs|
      invariant content == Content(cs[..i]) && Planned(ordered, content, seeds) && AllAnchored(ps, seeds)
    {
      var part := cs[i].patterns;
      ComponentIsPart(cs, i);
      PartRoles(part, ps);
      var isDynamic := exists k :: 0 <= k < |part| && dynamic(part[k]);
      var path, reordered;
      ghost var more;
      path, reordered, more := OrderPath(part, ids, isDynamic, estimate, cost);
      SumSnoc(PatternsOf(), cs, i);
      SeedsJoin(ps, part, seeds, more);
      PlanMore(ordered, content, seeds, path, multiset(part), more);
      content, seeds := content + multiset(part), seeds + more;
      ordered := ordered + path;
    }
    assert cs[..|cs|] == cs;
  }

  /** The order in which the patterns run: components by estimate, paths from their seeds. Every
      graph gives the same rows as in the written order. */
  method OrderPatterns(ps: seq<Pattern>, reorder: bool, ids: set<string>, dynamic: Pattern -> bool, estimate: Pattern -> nat, cost: NodePattern -> Cost, cap: nat)
    returns (ordered: seq<Pattern>)
    requires AllRoles(ps)
    ensures forall g :: Same(g, ordered, ps)
  {
    ordered := ps;
    if !reorder || ps == [] {
      return;
    }
    var cs := Components(ps);
    cs := Estimated(cs, estimate, cap);
    var sorted := SortComponents(cs);
    SumPermutes(PatternsOf(), sorted, cs);
    ghost var seeds;
    ordered, seeds := OrderComponents(sorted, ps, ids, dynamic, estimate, cost);
    forall g ensures Same(g, ordered, ps) { PlannedPatterns(g, ps, seeds, ordered); }
  }

  lemma SeedsJoin(ps: seq<Pattern>, part: seq<Pattern>, seeds: seq<NodePattern>, more: seq<NodePattern>)
    requires AllAnchored(ps, seeds) && AllAnchored(part, more) && multiset(part) <= multiset(ps)
    ensures AllAnchored(ps, seeds + more) && Vertices(seeds + more) == Vertices(seeds) + Vertices(more)
  {
    forall i | 0 <= i < |more| ensures Anchored(ps, more[i]) { MoreAnchors(part, multiset(ps), ps, more[i]); }
  }
}
