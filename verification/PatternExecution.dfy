/** The executor: full scans, scans of a label's nodes and adjacency expansion, all proved to
    compute the meaning of the pattern. */
module PatternExecution {

  import opened Orders
  import opened Graphs
  import opened Sums
  import opened Patterns
  import opened PatternAnswers

  ghost function Meaning(g: Graph, p: Pattern): Row -> multiset<Row> {
    row => Extensions(g, p, row)
  }

  /** The ids of a set in ascending order. */
  method SortedIDs(ids: set<nat>) returns (sorted: seq<nat>)
    ensures Listing(sorted, ids)
    ensures Sorted((x: nat, y: nat) => x <= y, sorted)
  {
    var le := (x: nat, y: nat) => x <= y;
    var list := Enumerate(ids);
    sorted := SortBy(le, list);
    NumbersAreOrdered();
    SortBySorts(le, list);
    SortByElements(le, list);
    ListingOf(sorted, ids);
  }

  lemma NumbersAreOrdered()
    ensures TotalPreorder((x: nat, y: nat) => x <= y)
  {
  }

  /** The edges a full scan visits: all of them, or those of the wanted kind. */
  method ScanIDs(g: Graph, kind: string) returns (ids: seq<nat>)
    requires Exact(g)
    ensures Distinct(ids) && forall e: nat :: e in ids <==> e in g.edges && (kind == "" || g.edges[e].head.kind == kind)
  {
    if kind == "" {
      ids := SortedIDs(g.edges.Keys);
    } else {
      ids := Postings(g.kinds, kind);
      assert Lists(ids, g.edges, KindOfEdge(), kind);
    }
  }

  method ScanRow(g: Graph, p: Pattern, row: Row, ids: seq<nat>) returns (rows: seq<Row>)
    requires p.Edge?
    ensures multiset(rows) == Sum(ScanShare(g, p, row), ids)
  {
    rows := [];
    ghost var share := ScanShare(g, p, row);
    for i := 0 to |ids|
      invariant multiset(rows) == Sum(share, ids[..i])
    {
      SumSnoc(share, ids, i);
      rows := rows + EdgeRecordRows(g, p, row, ids[i]);
    }
    assert ids[..|ids|] == ids;
  }

  method ExpandRow(g: Graph, p: Pattern, row: Row, ids: seq<nat>, reversed: bool) returns (rows: seq<Row>)
    requires p.Edge?
    ensures multiset(rows) == Sum(AdjacentShare(g, p, row, reversed), ids)
  {
    rows := [];
    ghost var share := AdjacentShare(g, p, row, reversed);
    for i := 0 to |ids|
      invariant multiset(rows) == Sum(share, ids[..i])
    {
      SumSnoc(share, ids, i);
      rows := rows + AdjacentRows(g, p, row, ids[i], reversed);
    }
    assert ids[..|ids|] == ids;
  }

  /** Every row against every edge. */
  method ApplyAll(g: Graph, p: Pattern, rows: seq<Row>) returns (next: seq<Row>)
    requires p.Edge? && Roles(p) && Exact(g)
    ensures multiset(next) == Sum(Meaning(g, p), rows)
  {
    next := [];
    ghost var meaning := Meaning(g, p);
    var ids := ScanIDs(g, p.kind);
    for i := 0 to |rows|
      invariant multiset(next) == Sum(meaning, rows[..i])
    {
      var more := ScanRow(g, p, rows[i], ids);
      ScanMeaning(g, p, rows[i], ids);
      SumSnoc(meaning, rows, i);
      next := next + more;
    }
    assert rows[..|rows|] == rows;
  }

  /** Every edge at one bound end of a row. */
  method ApplyFrom(g: Graph, p: Pattern, row: Row, n: nat, fromLeft: bool) returns (more: seq<Row>)
    requires p.Edge? && Roles(p) && Exact(g)
    requires BoundNode(row, (if fromLeft then p.left else p.right).name) == ToNode(n)
    ensures multiset(more) == Extensions(g, p, row)
  {
    AdjacencyMeaning(g, p, row, fromLeft);
    more := ExpandRow(g, p, row, EdgesOf(g, n, fromLeft), false);
    if p.undirected {
      var back := ExpandRow(g, p, row, EdgesOf(g, n, !fromLeft), true);
      more := more + back;
    }
  }

  method ApplyBoundRow(g: Graph, p: Pattern, row: Row) returns (more: seq<Row>)
    requires p.Edge? && Roles(p) && Exact(g)
    requires BoundNode(row, p.left.name).ToNode? || BoundNode(row, p.right.name).ToNode?
    ensures multiset(more) == Extensions(g, p, row)
  {
    var left, right := BoundNode(row, p.left.name), BoundNode(row, p.right.name);
    if left == Foreign || right == Foreign {
      ForeignMeaning(g, p, row);
      more := [];
    } else if left.ToNode? {
      more := ApplyFrom(g, p, row, left.id, true);
    } else {
      more := ApplyFrom(g, p, row, right.id, false);
    }
  }

  /** An edge pattern: expansion when every row has an end bound to a node, a scan otherwise.
      Either way, the same rows. */
  method ApplyEdge(g: Graph, p: Pattern, rows: seq<Row>) returns (next: seq<Row>)
    requires p.Edge? && Roles(p) && Exact(g)
    ensures multiset(next) == Sum(Meaning(g, p), rows) && AnswersAll(g, p, rows, next)
  {
    next := RunEdge(g, p, rows);
    MeaningAnswers(g, p, Meaning(g, p), rows, next);
  }

  method RunEdge(g: Graph, p: Pattern, rows: seq<Row>) returns (next: seq<Row>)
    requires p.Edge? && Roles(p) && Exact(g)
    ensures multiset(next) == Sum(Meaning(g, p), rows)
  {
    for i := 0 to |rows|
      invariant forall j :: 0 <= j < i ==> BoundNode(rows[j], p.left.name).ToNode? || BoundNode(rows[j], p.right.name).ToNode?
    {
      if !BoundNode(rows[i], p.left.name).ToNode? && !BoundNode(rows[i], p.right.name).ToNode? {
        next := ApplyAll(g, p, rows);
        return;
      }
    }
    next := [];
    ghost var meaning := Meaning(g, p);
    for i := 0 to |rows|
      invariant multiset(next) == Sum(meaning, rows[..i])
    {
      var more := ApplyBoundRow(g, p, rows[i]);
      SumSnoc(meaning, rows, i);
      next := next + more;
    }
    assert rows[..|rows|] == rows;
  }

  /** A row for a node, unless the name is bound to something else. */
  function AppendNodeRow(g: Graph, p: NodePattern, row: Row, n: nat): seq<Row> {
    if !NodeMatches(g, p, n) then []
    else if p.name != "" && p.name in row then (if row[p.name] == NodeRef(n) then [row] else [])
    else [Bind(row, p.name, NodeRef(n))]
  }

  lemma NodeRowIsContribution(g: Graph, p: Pattern, row: Row, n: nat)
    requires p.Vertex?
    ensures multiset(AppendNodeRow(g, p.node, row, n)) == Contribution(g, p, row, NodeCandidate(n))
  {
    if NodeMatches(g, p.node, n) {
      var s := Assign(p.node.name, NodeRef(n));
      BindIsJoin(row, p.node.name, NodeRef(n));
      if p.node.name != "" && p.node.name in row {
        assert p.node.name in s;
        if row[p.node.name] == NodeRef(n) { assert row + s == row; }
      } else {
        assert Compatible(row, s);
      }
    }
  }

  /** What a node adds to all the rows, and what a row gets from all the nodes. */
  function Share(g: Graph, p: Pattern): (nat, Row) -> multiset<Row> {
    (n: nat, row: Row) => Contribution(g, p, row, NodeCandidate(n))
  }

  lemma NodeMeaning(g: Graph, p: Pattern, rows: seq<Row>, nodes: seq<nat>)
    requires p.Vertex? && Listing(nodes, g.nodes.Keys)
    ensures Sum(Inner(Share(g, p), rows), nodes) == Sum(Meaning(g, p), rows)
  {
    SumSwap(Share(g, p), nodes, rows);
    forall i | 0 <= i < |rows| ensures Inner(Transposed(Share(g, p)), nodes)(rows[i]) == Meaning(g, p)(rows[i]) {
      RowMeaning(g, p, rows[i], nodes);
    }
    SumExt(Inner(Transposed(Share(g, p)), nodes), Meaning(g, p), rows);
  }

  lemma RowMeaning(g: Graph, p: Pattern, row: Row, nodes: seq<nat>)
    requires p.Vertex? && Listing(nodes, g.nodes.Keys)
    ensures Sum(Sums.Row(Transposed(Share(g, p)), row), nodes) == Extensions(g, p, row)
  {
    var edges := SeqOf(multiset(g.edges.Keys));
    SeqOfListing(g.edges.Keys);
    ExtensionsByKind(g, p, row, nodes, edges);
    NoEdges(g, p, row, edges, false);
    NoEdges(g, p, row, edges, true);
    SameShare(g, p, row, nodes);
    assert Sum(NodeShare(g, p, row), nodes) + multiset{} + multiset{} == Sum(NodeShare(g, p, row), nodes);
  }

  lemma SameShare(g: Graph, p: Pattern, row: Row, nodes: seq<nat>)
    ensures Sum(Sums.Row(Transposed(Share(g, p)), row), nodes) == Sum(NodeShare(g, p, row), nodes)
  {
    SumExt(Sums.Row(Transposed(Share(g, p)), row), NodeShare(g, p, row), nodes);
  }

  lemma NoEdges(g: Graph, p: Pattern, row: Row, edges: seq<nat>, reversed: bool)
    requires p.Vertex?
    ensures Sum(EdgeShare(g, p, row, reversed), edges) == multiset{}
  {
    SumOfNone(EdgeShare(g, p, row, reversed), edges);
  }

  method NodeAgainstRows(g: Graph, p: Pattern, rows: seq<Row>, n: nat) returns (more: seq<Row>)
    requires p.Vertex?
    ensures multiset(more) == Inner(Share(g, p), rows)(n)
  {
    more := [];
    ghost var share := Sums.Row(Share(g, p), n);
    for i := 0 to |rows|
      invariant multiset(more) == Sum(share, rows[..i])
    {
      NodeRowIsContribution(g, p, rows[i], n);
      SumSnoc(share, rows, i);
      more := more + AppendNodeRow(g, p.node, rows[i], n);
    }
    assert rows[..|rows|] == rows;
  }

  /** The label of the pattern with the fewest nodes. */
  method Anchor(g: Graph, labels: set<string>) returns (anchor: string)
    requires labels != {}
    ensures anchor in labels && forall l :: l in labels ==> |Postings(g.labels, anchor)| <= |Postings(g.labels, l)|
  {
    anchor :| anchor in labels;
    var rest := labels - {anchor};
    while rest != {}
      invariant anchor in labels && rest <= labels
      invariant forall l :: l in labels && l !in rest ==> |Postings(g.labels, anchor)| <= |Postings(g.labels, l)|
      decreases |rest|
    {
      var l :| l in rest;
      if |Postings(g.labels, l)| < |Postings(g.labels, anchor)| {
        anchor := l;
      }
      rest := rest - {l};
    }
  }

  /** The nodes a node pattern visits, ascending: all of them, or those with the rarest of its labels. */
  method NodeIDs(g: Graph, p: Pattern) returns (ids: seq<nat>)
    requires p.Vertex? && Labelled(g.labels, g.nodes)
    ensures Distinct(ids) && forall n: nat :: n in g.nodes && p.node.labels <= g.nodes[n].head ==> n in ids
    ensures Sorted((x: nat, y: nat) => x <= y, ids)
  {
    if p.node.labels == {} {
      ids := SortedIDs(g.nodes.Keys);
    } else {
      var anchor := Anchor(g, p.node.labels);
      assert Carriers(Postings(g.labels, anchor), g.nodes, anchor);
      ids := SortedIDs(set n | n in Postings(g.labels, anchor));
    }
  }

  lemma OnlyFitting(g: Graph, p: Pattern, rows: seq<Row>, n: nat)
    requires p.Vertex? && !(n in g.nodes && p.node.labels <= g.nodes[n].head)
    ensures Inner(Share(g, p), rows)(n) == multiset{}
  {
    SumOfNone(Sums.Row(Share(g, p), n), rows);
  }

  /** The nodes left out join with no row. */
  lemma AnchoredMeaning(g: Graph, p: Pattern, rows: seq<Row>, ids: seq<nat>)
    requires p.Vertex? && Distinct(ids) && forall n: nat :: n in g.nodes && p.node.labels <= g.nodes[n].head ==> n in ids
    ensures Sum(Inner(Share(g, p), rows), ids) == Sum(Meaning(g, p), rows)
  {
    var all := SeqOf(multiset(g.nodes.Keys));
    SeqOfListing(g.nodes.Keys);
    forall n: nat | Inner(Share(g, p), rows)(n) != multiset{} ensures n in ids <==> n in all {
      if !(n in g.nodes && p.node.labels <= g.nodes[n].head) { OnlyFitting(g, p, rows, n); }
    }
    SumSupport(Inner(Share(g, p), rows), ids, all);
    NodeMeaning(g, p, rows, all);
  }

  /** A node pattern: every candidate node against every row. */
  method ApplyNode(g: Graph, p: Pattern, rows: seq<Row>) returns (next: seq<Row>)
    requires p.Vertex? && Labelled(g.labels, g.nodes)
    ensures multiset(next) == Sum(Meaning(g, p), rows) && AnswersAll(g, p, rows, next)
  {
    var nodes := NodeIDs(g, p);
    next := [];
    ghost var inner := Inner(Share(g, p), rows);
    for i := 0 to |nodes|
      invariant multiset(next) == Sum(inner, nodes[..i])
    {
      var more := NodeAgainstRows(g, p, rows, nodes[i]);
      SumSnoc(inner, nodes, i);
      next := next + more;
    }
    assert nodes[..|nodes|] == nodes;
    AnchoredMeaning(g, p, rows, nodes);
    MeaningAnswers(g, p, Meaning(g, p), rows, next);
  }
}
