/** What the rows of a pattern are, said of the record tables alone: which nodes and edges answer a
    pattern for a row, how often each new row comes out, and that nothing else does. */
module PatternAnswers {

  import opened Orders
  import opened Values
  import opened DistinctKey
  import opened Graphs
  import opened Sums
  import opened Patterns

  /** Every required property is there, with an equal value; null equals nothing. */
  ghost predicate HasEach(have: Properties, required: Properties) {
    forall k :: k in required ==> k in have && Equal(have[k], required[k], false)
  }

  /** The node exists, carries every label and has every property asked for. */
  ghost predicate Suits(g: Graph, p: NodePattern, n: nat) {
    n in g.nodes && (forall l :: l in p.labels ==> l in g.nodes[n].head) && HasEach(g.nodes[n].properties, p.properties)
  }

  /** A name may be given to an entity: it is anonymous, new or already that entity's. */
  ghost predicate MayName(row: Row, name: string, b: Binding) { name == "" || name !in row || row[name] == b }

  function Named(row: Row, name: string, b: Binding): Row { if name == "" then row else row[name := b] }

  /** The node answers a node pattern for a row, giving a new row. */
  ghost predicate NodeAnswers(g: Graph, p: NodePattern, row: Row, n: nat, next: Row) {
    Suits(g, p, n) && MayName(row, p.name, NodeRef(n)) && next == Named(row, p.name, NodeRef(n))
  }

  /** The edge, taken as stored or reversed, has the kind and properties asked for and suitable ends. */
  ghost predicate EdgeSuits(g: Graph, p: Pattern, e: nat, reversed: bool)
    requires p.Edge?
  {
    && e in g.edges
    && var record := g.edges[e].head;
       var from, into := if reversed then record.target else record.source, if reversed then record.source else record.target;
       && (p.kind == "" || record.kind == p.kind) && HasEach(g.edges[e].properties, p.properties)
       && (reversed ==> p.undirected && from != into)
       && Suits(g, p.left, from) && Suits(g, p.right, into) && (p.left.name != "" && p.left.name == p.right.name ==> from == into)
  }

  /** An edge and its two ends may get the names of the pattern, giving a new row. */
  ghost predicate EdgeNames(p: Pattern, row: Row, e: nat, from: nat, into: nat, next: Row)
    requires p.Edge?
  {
    && MayName(row, p.left.name, NodeRef(from)) && MayName(row, p.right.name, NodeRef(into)) && MayName(row, p.name, EdgeRef(e))
    && next == Named(Named(Named(row, p.left.name, NodeRef(from)), p.right.name, NodeRef(into)), p.name, EdgeRef(e))
  }

  /** The edge, taken as stored or reversed, answers an edge pattern for a row. */
  ghost predicate EdgeAnswers(g: Graph, p: Pattern, row: Row, e: nat, reversed: bool, next: Row)
    requires p.Edge?
  {
    && EdgeSuits(g, p, e, reversed)
    && var record := g.edges[e].head;
       if reversed then EdgeNames(p, row, e, record.target, record.source, next) else EdgeNames(p, row, e, record.source, record.target, next)
  }

  /** Something in the graph answers the pattern for a row. */
  ghost predicate Answered(g: Graph, p: Pattern, row: Row, next: Row) {
    match p
    case Vertex(node) => exists n :: NodeAnswers(g, node, row, n, next)
    case Edge(_, _, _, _, _, _) => exists e, reversed :: EdgeAnswers(g, p, row, e, reversed, next)
  }

  // One candidate.

  lemma NamedIsJoined(row: Row, name: string, b: Binding)
    ensures Compatible(row, Assign(name, b)) <==> MayName(row, name, b)
    ensures row + Assign(name, b) == Named(row, name, b)
  {
    if name != "" { assert name in Assign(name, b); }
  }

  lemma NodeContributes(g: Graph, p: Pattern, row: Row, n: nat, next: Row)
    requires p.Vertex?
    ensures Contribution(g, p, row, NodeCandidate(n))[next] == if NodeAnswers(g, p.node, row, n, next) then 1 else 0
  {
    NamedIsJoined(row, p.node.name, NodeRef(n));
  }

  /** Three names at once, when equal names stand for the same entity. */
  lemma ThreeNames(row: Row, p: Pattern, e: nat, l: nat, r: nat)
    requires p.Edge? && Roles(p) && (p.left.name != "" && p.left.name == p.right.name ==> l == r)
    ensures Compatible(row, EdgeSolution(p, e, l, r))
      <==> MayName(row, p.left.name, NodeRef(l)) && MayName(row, p.right.name, NodeRef(r)) && MayName(row, p.name, EdgeRef(e))
    ensures row + EdgeSolution(p, e, l, r) == Named(Named(Named(row, p.left.name, NodeRef(l)), p.right.name, NodeRef(r)), p.name, EdgeRef(e))
  {
    var s := EdgeSolution(p, e, l, r);
    assert p.left.name != "" ==> p.left.name in s && s[p.left.name] == NodeRef(l);
    assert p.right.name != "" ==> p.right.name in s && s[p.right.name] == NodeRef(r);
    assert p.name != "" ==> p.name in s && s[p.name] == EdgeRef(e);
  }

  lemma SuitsIsMatch(g: Graph, p: NodePattern, n: nat)
    ensures Suits(g, p, n) <==> NodeMatches(g, p, n)
  {
  }

  lemma SuitsIsQualified(g: Graph, p: Pattern, e: nat, reversed: bool)
    requires p.Edge?
    ensures EdgeSuits(g, p, e, reversed) <==> Qualifies(g, p, EdgeCandidate(e, reversed))
  {
    if e in g.edges {
      var record := g.edges[e].head;
      SuitsIsMatch(g, p.left, record.source);
      SuitsIsMatch(g, p.left, record.target);
      SuitsIsMatch(g, p.right, record.source);
      SuitsIsMatch(g, p.right, record.target);
    }
  }

  lemma NamesAreJoined(row: Row, p: Pattern, e: nat, l: nat, r: nat, next: Row)
    requires p.Edge? && Roles(p) && (p.left.name != "" && p.left.name == p.right.name ==> l == r)
    ensures Joined(row, EdgeSolution(p, e, l, r))[next] == if EdgeNames(p, row, e, l, r, next) then 1 else 0
  {
    ThreeNames(row, p, e, l, r);
  }

  lemma EdgeContributes(g: Graph, p: Pattern, row: Row, e: nat, reversed: bool, next: Row)
    requires p.Edge? && Roles(p)
    ensures Contribution(g, p, row, EdgeCandidate(e, reversed))[next] == if EdgeAnswers(g, p, row, e, reversed, next) then 1 else 0
  {
    SuitsIsQualified(g, p, e, reversed);
    if EdgeSuits(g, p, e, reversed) {
      NamesAreJoined(row, p, e, LeftEnd(g.edges[e], reversed), RightEnd(g.edges[e], reversed), next);
    }
  }

  // All candidates.

  ghost function AnsweringNodes(g: Graph, p: Pattern, row: Row, next: Row): set<nat>
    requires p.Vertex?
  {
    set n | n in g.nodes && NodeAnswers(g, p.node, row, n, next)
  }

  ghost function AnsweringEdges(g: Graph, p: Pattern, row: Row, reversed: bool, next: Row): set<nat>
    requires p.Edge?
  {
    set e | e in g.edges && EdgeAnswers(g, p, row, e, reversed, next)
  }

  lemma EdgesCounted(g: Graph, p: Pattern, row: Row, reversed: bool, next: Row, edges: seq<nat>)
    requires p.Edge? && Roles(p) && Listing(edges, g.edges.Keys)
    ensures Sum(EdgeShare(g, p, row, reversed), edges)[next] == |AnsweringEdges(g, p, row, reversed, next)|
  {
    var f, givers := EdgeShare(g, p, row, reversed), AnsweringEdges(g, p, row, reversed, next);
    forall e | e in edges ensures f(e)[next] == if e in givers then 1 else 0 { EdgeContributes(g, p, row, e, reversed, next); }
    SumCounts(f, edges, next, givers);
  }

  lemma NodesCounted(g: Graph, p: Pattern, row: Row, next: Row, nodes: seq<nat>)
    requires p.Vertex? && Listing(nodes, g.nodes.Keys)
    ensures Sum(NodeShare(g, p, row), nodes)[next] == |AnsweringNodes(g, p, row, next)|
  {
    var f, givers := NodeShare(g, p, row), AnsweringNodes(g, p, row, next);
    forall n | n in nodes ensures f(n)[next] == if n in givers then 1 else 0 { NodeContributes(g, p, row, n, next); }
    SumCounts(f, nodes, next, givers);
  }

  lemma EachNodeOnce(g: Graph, p: Pattern, row: Row, next: Row, nodes: seq<nat>, edges: seq<nat>)
    requires p.Vertex? && Listing(nodes, g.nodes.Keys) && Listing(edges, g.edges.Keys)
    ensures Extensions(g, p, row)[next] == |AnsweringNodes(g, p, row, next)|
  {
    ExtensionsByKind(g, p, row, nodes, edges);
    NodesCounted(g, p, row, next, nodes);
    SumOfNone(EdgeShare(g, p, row, false), edges);
    SumOfNone(EdgeShare(g, p, row, true), edges);
  }

  lemma EachEdgeOnce(g: Graph, p: Pattern, row: Row, next: Row, nodes: seq<nat>, edges: seq<nat>)
    requires p.Edge? && Roles(p) && Listing(nodes, g.nodes.Keys) && Listing(edges, g.edges.Keys)
    ensures Extensions(g, p, row)[next] == |AnsweringEdges(g, p, row, false, next)| + |AnsweringEdges(g, p, row, true, next)|
  {
    ExtensionsByKind(g, p, row, nodes, edges);
    EdgesCounted(g, p, row, false, next, edges);
    EdgesCounted(g, p, row, true, next, edges);
    SumOfNone(NodeShare(g, p, row), nodes);
  }

  /** A row comes out of a pattern as often as there are nodes, or edges and directions, that answer
      the pattern with it. */
  lemma EachAnswerOnce(g: Graph, p: Pattern, row: Row, next: Row)
    requires Roles(p)
    ensures p.Vertex? ==> Extensions(g, p, row)[next] == |AnsweringNodes(g, p, row, next)|
    ensures p.Edge? ==> Extensions(g, p, row)[next] == |AnsweringEdges(g, p, row, false, next)| + |AnsweringEdges(g, p, row, true, next)|
  {
    var nodes, edges := SeqOf(multiset(g.nodes.Keys)), SeqOf(multiset(g.edges.Keys));
    SeqOfListing(g.nodes.Keys);
    SeqOfListing(g.edges.Keys);
    if p.Vertex? { EachNodeOnce(g, p, row, next, nodes, edges); } else { EachEdgeOnce(g, p, row, next, nodes, edges); }
  }

  lemma AnswersAreExtensions(g: Graph, p: Pattern, row: Row, next: Row)
    requires Roles(p)
    ensures next in Extensions(g, p, row) <==> Answered(g, p, row, next)
  {
    EachAnswerOnce(g, p, row, next);
    if p.Vertex? {
      var all := AnsweringNodes(g, p, row, next);
      if n :| NodeAnswers(g, p.node, row, n, next) { assert n in all; }
      if |all| > 0 { var n :| n in all; }
    } else {
      var there, back := AnsweringEdges(g, p, row, false, next), AnsweringEdges(g, p, row, true, next);
      if e, reversed :| EdgeAnswers(g, p, row, e, reversed, next) { assert e in if reversed then back else there; }
      if |there| > 0 { var e :| e in there; }
      if |back| > 0 { var e :| e in back; }
    }
  }

  // All rows.

  /** The rows after a pattern are the answers for the rows before it. */
  ghost predicate AnswersAll(g: Graph, p: Pattern, rows: seq<Row>, next: seq<Row>) {
    forall r :: r in next <==> AnsweredBy(g, p, rows, r)
  }

  ghost predicate AnsweredBy(g: Graph, p: Pattern, rows: seq<Row>, next: Row) {
    exists i :: 0 <= i < |rows| && Answered(g, p, rows[i], next)
  }

  lemma MeaningAnswers(g: Graph, p: Pattern, meaning: Row -> multiset<Row>, rows: seq<Row>, next: seq<Row>)
    requires Roles(p) && multiset(next) == Sum(meaning, rows) && forall row :: meaning(row) == Extensions(g, p, row)
    ensures AnswersAll(g, p, rows, next)
  {
    forall r ensures r in next <==> AnsweredBy(g, p, rows, r) {
      assert r in next <==> r in multiset(next);
      InSum(meaning, rows, r);
      forall i | 0 <= i < |rows| ensures r in meaning(rows[i]) <==> Answered(g, p, rows[i], r) { AnswersAreExtensions(g, p, rows[i], r); }
    }
  }
}
