/** Matching node and edge patterns: every candidate of the graph joined with every row, and the
    scans and adjacency expansions that compute it. */
module Patterns {

  import opened Orders
  import opened Values
  import opened DistinctKey
  import opened Graphs
  import opened Sums

  /** Rows name the entities they bind; other values cannot match a pattern. */
  datatype Binding = NodeRef(id: nat) | EdgeRef(id: nat) | Other

  type Row = map<string, Binding>

  /** An anonymous pattern has the empty name. */
  datatype NodePattern = NodePattern(name: string, labels: set<string>, properties: Properties)

  datatype Pattern =
    | Vertex(node: NodePattern)
    | Edge(left: NodePattern, right: NodePattern, name: string, kind: string, properties: Properties, undirected: bool)

  /** The query compiler refuses a name that is both a node and an edge of one pattern. */
  predicate Roles(p: Pattern) {
    p.Edge? && p.name != "" ==> p.name != p.left.name && p.name != p.right.name
  }

  predicate PropertiesMatch(properties: Properties, required: Properties) {
    forall k :: k in required ==> k in properties && Equal(properties[k], required[k], false)
  }

  predicate NodeMatches(g: Graph, p: NodePattern, n: nat) {
    n in g.nodes && p.labels <= g.nodes[n].head && PropertiesMatch(g.nodes[n].properties, p.properties)
  }

  // The meaning of a pattern: a join with the candidates that qualify.

  datatype Candidate = NodeCandidate(id: nat) | EdgeCandidate(id: nat, reversed: bool)

  function Assign(name: string, b: Binding): Row { if name == "" then map[] else map[name := b] }

  function LeftEnd(e: EdgeRecord, reversed: bool): nat { if reversed then e.head.target else e.head.source }
  function RightEnd(e: EdgeRecord, reversed: bool): nat { if reversed then e.head.source else e.head.target }

  predicate EdgeFits(p: Pattern, e: EdgeRecord)
    requires p.Edge?
  {
    (p.kind == "" || e.head.kind == p.kind) && PropertiesMatch(e.properties, p.properties)
  }

  predicate EndsFit(g: Graph, p: Pattern, l: nat, r: nat)
    requires p.Edge?
  {
    NodeMatches(g, p.left, l) && NodeMatches(g, p.right, r) && (p.left.name != "" && p.left.name == p.right.name ==> l == r)
  }

  /** An undirected pattern takes an edge both ways, a self-loop only once. */
  predicate Qualifies(g: Graph, p: Pattern, c: Candidate) {
    match (p, c)
    case (Vertex(node), NodeCandidate(n)) => NodeMatches(g, node, n)
    case (Edge(_, _, _, _, _, undirected), EdgeCandidate(id, reversed)) =>
      && id in g.edges
      && EdgeFits(p, g.edges[id])
      && (reversed ==> undirected && g.edges[id].head.source != g.edges[id].head.target)
      && EndsFit(g, p, LeftEnd(g.edges[id], reversed), RightEnd(g.edges[id], reversed))
    case (_, _) => false
  }

  function EdgeSolution(p: Pattern, e: nat, l: nat, r: nat): Row
    requires p.Edge?
  {
    Assign(p.left.name, NodeRef(l)) + Assign(p.right.name, NodeRef(r)) + Assign(p.name, EdgeRef(e))
  }

  /** What a candidate binds. */
  function Solution(g: Graph, p: Pattern, c: Candidate): Row
    requires Qualifies(g, p, c)
  {
    match c
    case NodeCandidate(n) => Assign(p.node.name, NodeRef(n))
    case EdgeCandidate(id, reversed) => EdgeSolution(p, id, LeftEnd(g.edges[id], reversed), RightEnd(g.edges[id], reversed))
  }

  predicate Compatible(row: Row, s: Row) {
    forall x :: x in row && x in s ==> row[x] == s[x]
  }

  function Joined(row: Row, s: Row): multiset<Row> {
    if Compatible(row, s) then multiset{row + s} else multiset{}
  }

  function Contribution(g: Graph, p: Pattern, row: Row, c: Candidate): multiset<Row> {
    if Qualifies(g, p, c) then Joined(row, Solution(g, p, c)) else multiset{}
  }

  function Contributions(g: Graph, p: Pattern, row: Row): Candidate -> multiset<Row> {
    c => Contribution(g, p, row, c)
  }

  function NodeCandidates(ids: seq<nat>): seq<Candidate> {
    seq(|ids|, i requires 0 <= i < |ids| => NodeCandidate(ids[i]))
  }

  function EdgeCandidates(ids: seq<nat>, reversed: bool): seq<Candidate> {
    seq(|ids|, i requires 0 <= i < |ids| => EdgeCandidate(ids[i], reversed))
  }

  ghost function Candidates(g: Graph): seq<Candidate> {
    var edges := SeqOf(multiset(g.edges.Keys));
    NodeCandidates(SeqOf(multiset(g.nodes.Keys))) + EdgeCandidates(edges, false) + EdgeCandidates(edges, true)
  }

  /** The rows a pattern makes of one row. */
  ghost function Extensions(g: Graph, p: Pattern, row: Row): multiset<Row> {
    Sum(Contributions(g, p, row), Candidates(g))
  }

  function NodeShare(g: Graph, p: Pattern, row: Row): nat -> multiset<Row> {
    (n: nat) => Contribution(g, p, row, NodeCandidate(n))
  }

  function EdgeShare(g: Graph, p: Pattern, row: Row, reversed: bool): nat -> multiset<Row> {
    (e: nat) => Contribution(g, p, row, EdgeCandidate(e, reversed))
  }

  lemma {:induction false} SumOfNodes(g: Graph, p: Pattern, row: Row, ids: seq<nat>)
    ensures Sum(Contributions(g, p, row), NodeCandidates(ids)) == Sum(NodeShare(g, p, row), ids)
  {
    if ids != [] {
      assert NodeCandidates(ids)[1..] == NodeCandidates(ids[1..]);
      SumOfNodes(g, p, row, ids[1..]);
    }
  }

  lemma {:induction false} SumOfEdges(g: Graph, p: Pattern, row: Row, ids: seq<nat>, reversed: bool)
    ensures Sum(Contributions(g, p, row), EdgeCandidates(ids, reversed)) == Sum(EdgeShare(g, p, row, reversed), ids)
  {
    if ids != [] {
      assert EdgeCandidates(ids, reversed)[1..] == EdgeCandidates(ids[1..], reversed);
      SumOfEdges(g, p, row, ids[1..], reversed);
    }
  }

  /** The meaning of a pattern, by kind of candidate, in any listing of nodes and edges. */
  lemma ExtensionsByKind(g: Graph, p: Pattern, row: Row, nodes: seq<nat>, edges: seq<nat>)
    requires Listing(nodes, g.nodes.Keys) && Listing(edges, g.edges.Keys)
    ensures Extensions(g, p, row) == Sum(NodeShare(g, p, row), nodes) + Sum(EdgeShare(g, p, row, false), edges) + Sum(EdgeShare(g, p, row, true), edges)
  {
    var ns, es := SeqOf(multiset(g.nodes.Keys)), SeqOf(multiset(g.edges.Keys));
    var f := Contributions(g, p, row);
    SumConcat(f, NodeCandidates(ns) + EdgeCandidates(es, false), EdgeCandidates(es, true));
    SumConcat(f, NodeCandidates(ns), EdgeCandidates(es, false));
    SumOfNodes(g, p, row, ns);
    SumOfEdges(g, p, row, es, false);
    SumOfEdges(g, p, row, es, true);
    SeqOfListing(g.nodes.Keys);
    SeqOfListing(g.edges.Keys);
    SumSupport(NodeShare(g, p, row), nodes, ns);
    SumSupport(EdgeShare(g, p, row, false), edges, es);
    SumSupport(EdgeShare(g, p, row, true), edges, es);
  }

  // What the executor computes.

  /** The node a name is bound to; a name bound to something else counts as bound. */
  datatype Bound = Unbound | Foreign | ToNode(id: nat)

  function BoundNode(row: Row, name: string): Bound {
    if name == "" || name !in row then Unbound
    else if row[name].NodeRef? then ToNode(row[name].id)
    else Foreign
  }

  predicate BindingMatchesNode(row: Row, name: string, n: nat) {
    name == "" || name !in row || row[name] == NodeRef(n)
  }

  predicate BindingMatchesEdge(row: Row, name: string, e: nat) {
    name == "" || name !in row || row[name] == EdgeRef(e)
  }

  function Bind(row: Row, name: string, b: Binding): Row { if name == "" then row else row[name := b] }

  function BindEdge(p: Pattern, row: Row, e: nat, l: nat, r: nat): Row
    requires p.Edge?
  {
    Bind(Bind(Bind(row, p.left.name, NodeRef(l)), p.right.name, NodeRef(r)), p.name, EdgeRef(e))
  }

  /** One row for an edge and its two ends, unless an end does not fit. */
  function AppendEdgeRow(g: Graph, p: Pattern, row: Row, e: nat, l: nat, r: nat): seq<Row>
    requires p.Edge?
  {
    if p.left.name != "" && p.left.name == p.right.name && l != r then []
    else if !NodeMatches(g, p.left, l) || !NodeMatches(g, p.right, r) then []
    else if !BindingMatchesNode(row, p.left.name, l) || !BindingMatchesNode(row, p.right.name, r) then []
    else [BindEdge(p, row, e, l, r)]
  }

  /** Full scan: an edge, and its reverse for an undirected pattern. */
  function EdgeRecordRows(g: Graph, p: Pattern, row: Row, e: nat): seq<Row>
    requires p.Edge?
  {
    if e !in g.edges || !BindingMatchesEdge(row, p.name, e) || !EdgeFits(p, g.edges[e]) then []
    else
      var source, target := g.edges[e].head.source, g.edges[e].head.target;
      if source !in g.nodes || target !in g.nodes then []
      else AppendEdgeRow(g, p, row, e, source, target)
           + if !p.undirected || source == target then [] else AppendEdgeRow(g, p, row, e, target, source)
  }

  /** Adjacency: an edge in one direction. */
  function AdjacentRows(g: Graph, p: Pattern, row: Row, e: nat, reversed: bool): seq<Row>
    requires p.Edge?
  {
    if e !in g.edges || (reversed && g.edges[e].head.source == g.edges[e].head.target) || !EdgeFits(p, g.edges[e]) then []
    else if !BindingMatchesEdge(row, p.name, e) then []
    else
      var l, r := LeftEnd(g.edges[e], reversed), RightEnd(g.edges[e], reversed);
      if l !in g.nodes || r !in g.nodes then [] else AppendEdgeRow(g, p, row, e, l, r)
  }

  lemma CompatibleByName(p: Pattern, row: Row, e: nat, l: nat, r: nat)
    requires p.Edge? && Roles(p) && (p.left.name != "" && p.left.name == p.right.name ==> l == r)
    ensures Compatible(row, EdgeSolution(p, e, l, r)) <==>
              BindingMatchesEdge(row, p.name, e) && BindingMatchesNode(row, p.left.name, l) && BindingMatchesNode(row, p.right.name, r)
  {
    var s := EdgeSolution(p, e, l, r);
    assert p.left.name != "" ==> p.left.name in s && s[p.left.name] == NodeRef(l);
    assert p.right.name != "" ==> p.right.name in s && s[p.right.name] == NodeRef(r);
    assert p.name != "" ==> p.name in s && s[p.name] == EdgeRef(e);
    assert forall x :: x in s ==> x == p.left.name || x == p.right.name || x == p.name;
  }

  lemma BindIsJoin(row: Row, name: string, b: Binding)
    ensures Bind(row, name, b) == row + Assign(name, b)
  {
  }

  lemma JoinAssociates(a: Row, b: Row, c: Row)
    ensures (a + b) + c == a + (b + c)
  {
  }

  lemma BoundInTurn(p: Pattern, row: Row, e: nat, l: nat, r: nat)
    requires p.Edge?
    ensures BindEdge(p, row, e, l, r) == row + EdgeSolution(p, e, l, r)
  {
    var a, b, c := Assign(p.left.name, NodeRef(l)), Assign(p.right.name, NodeRef(r)), Assign(p.name, EdgeRef(e));
    BindIsJoin(row, p.left.name, NodeRef(l));
    BindIsJoin(row + a, p.right.name, NodeRef(r));
    BindIsJoin(row + a + b, p.name, EdgeRef(e));
    JoinAssociates(row, a, b);
    JoinAssociates(row, a + b, c);
  }

  /** One direction of an edge yields what its candidate contributes. */
  lemma DirectionIsContribution(g: Graph, p: Pattern, row: Row, e: nat, reversed: bool)
    requires p.Edge? && Roles(p) && (reversed ==> p.undirected)
    ensures multiset(AdjacentRows(g, p, row, e, reversed)) == Contribution(g, p, row, EdgeCandidate(e, reversed))
  {
    if e in g.edges {
      var l, r := LeftEnd(g.edges[e], reversed), RightEnd(g.edges[e], reversed);
      if Qualifies(g, p, EdgeCandidate(e, reversed)) {
        CompatibleByName(p, row, e, l, r);
        if Compatible(row, EdgeSolution(p, e, l, r)) {
          BoundInTurn(p, row, e, l, r);
        }
      }
    }
  }

  lemma ScanIsBothDirections(g: Graph, p: Pattern, row: Row, e: nat)
    requires p.Edge? && Roles(p)
    ensures multiset(EdgeRecordRows(g, p, row, e)) == EdgeShare(g, p, row, false)(e) + EdgeShare(g, p, row, true)(e)
  {
    DirectionIsContribution(g, p, row, e, false);
    if p.undirected { DirectionIsContribution(g, p, row, e, true); }
    ScanIsTwoExpansions(g, p, row, e);
  }

  lemma ScanIsTwoExpansions(g: Graph, p: Pattern, row: Row, e: nat)
    requires p.Edge?
    ensures EdgeRecordRows(g, p, row, e) == AdjacentRows(g, p, row, e, false) + if p.undirected then AdjacentRows(g, p, row, e, true) else []
  {
  }

  // Lists of edges against the meaning of a pattern.

  /** What scanning an edge adds, as a multiset. */
  function ScanShare(g: Graph, p: Pattern, row: Row): nat -> multiset<Row>
    requires p.Edge?
  {
    (e: nat) => multiset(EdgeRecordRows(g, p, row, e))
  }

  function AdjacentShare(g: Graph, p: Pattern, row: Row, reversed: bool): nat -> multiset<Row>
    requires p.Edge?
  {
    (e: nat) => multiset(AdjacentRows(g, p, row, e, reversed))
  }

  /** Only node candidates matter to a node pattern, only edge candidates to an edge pattern. */
  lemma EdgeMeaning(g: Graph, p: Pattern, row: Row, edges: seq<nat>)
    requires p.Edge? && Listing(edges, g.edges.Keys)
    ensures Extensions(g, p, row) == Sum(EdgeShare(g, p, row, false), edges) + Sum(EdgeShare(g, p, row, true), edges)
  {
    var nodes := SeqOf(multiset(g.nodes.Keys));
    SeqOfListing(g.nodes.Keys);
    ExtensionsByKind(g, p, row, nodes, edges);
    NoNodes(g, p, row, nodes);
    DropNone(Sum(NodeShare(g, p, row), nodes), Sum(EdgeShare(g, p, row, false), edges), Sum(EdgeShare(g, p, row, true), edges));
  }

  lemma DropNone(a: multiset<Row>, b: multiset<Row>, c: multiset<Row>)
    requires a == multiset{}
    ensures a + b + c == b + c
  {
  }

  lemma NoNodes(g: Graph, p: Pattern, row: Row, nodes: seq<nat>)
    requires p.Edge?
    ensures Sum(NodeShare(g, p, row), nodes) == multiset{}
  {
    SumOfNone(NodeShare(g, p, row), nodes);
  }

  lemma NoReverse(g: Graph, p: Pattern, row: Row, edges: seq<nat>)
    requires p.Edge? && !p.undirected
    ensures Sum(EdgeShare(g, p, row, true), edges) == multiset{}
  {
    SumOfNone(EdgeShare(g, p, row, true), edges);
  }

  /** A full scan yields the meaning: over all edges, or over the edges of the wanted kind. */
  lemma ScanMeaning(g: Graph, p: Pattern, row: Row, ids: seq<nat>)
    requires p.Edge? && Roles(p) && Distinct(ids)
    requires forall e: nat :: e in ids <==> e in g.edges && (p.kind == "" || g.edges[e].head.kind == p.kind)
    ensures Sum(ScanShare(g, p, row), ids) == Extensions(g, p, row)
  {
    var edges := SeqOf(multiset(g.edges.Keys));
    SeqOfListing(g.edges.Keys);
    var f := ScanShare(g, p, row);
    SumSupport(f, ids, edges);
    forall e: nat ensures f(e) == EdgeShare(g, p, row, false)(e) + EdgeShare(g, p, row, true)(e) { ScanIsBothDirections(g, p, row, e); }
    SumAdd(EdgeShare(g, p, row, false), EdgeShare(g, p, row, true), f, edges);
    EdgeMeaning(g, p, row, edges);
  }

  /** The ends of the edges that can match a row whose left or right end is bound. */
  lemma BoundEnds(g: Graph, p: Pattern, row: Row, e: nat, reversed: bool)
    requires p.Edge? && Roles(p) && EdgeShare(g, p, row, reversed)(e) != multiset{}
    ensures e in g.edges && (reversed ==> p.undirected)
    ensures BoundNode(row, p.left.name).ToNode? ==> LeftEnd(g.edges[e], reversed) == BoundNode(row, p.left.name).id
    ensures BoundNode(row, p.right.name).ToNode? ==> RightEnd(g.edges[e], reversed) == BoundNode(row, p.right.name).id
    ensures BoundNode(row, p.left.name) != Foreign && BoundNode(row, p.right.name) != Foreign
  {
    CompatibleByName(p, row, e, LeftEnd(g.edges[e], reversed), RightEnd(g.edges[e], reversed));
  }

  /** Edges leaving a node and edges entering it. */
  function EdgesOf(g: Graph, n: nat, outgoing: bool): seq<nat> {
    Postings(if outgoing then g.outgoing else g.incoming, n)
  }

  lemma EdgesOfExact(g: Graph, n: nat, outgoing: bool)
    requires Exact(g)
    ensures Distinct(EdgesOf(g, n, outgoing))
    ensures forall e: nat :: e in EdgesOf(g, n, outgoing) <==> e in g.edges && (if outgoing then g.edges[e].head.source else g.edges[e].head.target) == n
  {
    if outgoing {
      assert Lists(Postings(g.outgoing, n), g.edges, SourceOf(), n);
    } else {
      assert Lists(Postings(g.incoming, n), g.edges, TargetOf(), n);
    }
  }

  /** One direction of the meaning, from the adjacency list of a bound end. */
  lemma DirectionFromEnd(g: Graph, p: Pattern, row: Row, fromLeft: bool, reversed: bool, edges: seq<nat>)
    requires p.Edge? && Roles(p) && Exact(g) && Listing(edges, g.edges.Keys) && (reversed ==> p.undirected)
    requires BoundNode(row, (if fromLeft then p.left else p.right).name).ToNode?
    ensures var n := BoundNode(row, (if fromLeft then p.left else p.right).name).id;
            Sum(AdjacentShare(g, p, row, reversed), EdgesOf(g, n, fromLeft != reversed)) == Sum(EdgeShare(g, p, row, reversed), edges)
  {
    var n := BoundNode(row, (if fromLeft then p.left else p.right).name).id;
    var ids := EdgesOf(g, n, fromLeft != reversed);
    EdgesOfExact(g, n, fromLeft != reversed);
    forall i | 0 <= i < |ids| ensures AdjacentShare(g, p, row, reversed)(ids[i]) == EdgeShare(g, p, row, reversed)(ids[i]) {
      DirectionIsContribution(g, p, row, ids[i], reversed);
    }
    SumExt(AdjacentShare(g, p, row, reversed), EdgeShare(g, p, row, reversed), ids);
    forall e: nat | EdgeShare(g, p, row, reversed)(e) != multiset{} ensures e in ids <==> e in edges {
      BoundEnds(g, p, row, e, reversed);
    }
    SumSupport(EdgeShare(g, p, row, reversed), ids, edges);
  }

  /** Expansion from a bound end, in both directions where the pattern is undirected, yields the
      meaning of the pattern. */
  lemma AdjacencyMeaning(g: Graph, p: Pattern, row: Row, fromLeft: bool)
    requires p.Edge? && Roles(p) && Exact(g)
    requires BoundNode(row, (if fromLeft then p.left else p.right).name).ToNode?
    ensures var n := BoundNode(row, (if fromLeft then p.left else p.right).name).id;
            Extensions(g, p, row) == Sum(AdjacentShare(g, p, row, false), EdgesOf(g, n, fromLeft))
              + if p.undirected then Sum(AdjacentShare(g, p, row, true), EdgesOf(g, n, !fromLeft)) else multiset{}
  {
    var edges := SeqOf(multiset(g.edges.Keys));
    SeqOfListing(g.edges.Keys);
    EdgeMeaning(g, p, row, edges);
    DirectionFromEnd(g, p, row, fromLeft, false, edges);
    if p.undirected {
      DirectionFromEnd(g, p, row, fromLeft, true, edges);
    } else {
      NoReverse(g, p, row, edges);
    }
  }

  /** A row that binds an end to something else has no extension. */
  lemma ForeignMeaning(g: Graph, p: Pattern, row: Row)
    requires p.Edge? && Roles(p) && (BoundNode(row, p.left.name) == Foreign || BoundNode(row, p.right.name) == Foreign)
    ensures Extensions(g, p, row) == multiset{}
  {
    var edges := SeqOf(multiset(g.edges.Keys));
    SeqOfListing(g.edges.Keys);
    EdgeMeaning(g, p, row, edges);
    forall i, reversed | 0 <= i < |edges| ensures EdgeShare(g, p, row, reversed)(edges[i]) == multiset{} {
      if EdgeShare(g, p, row, reversed)(edges[i]) != multiset{} { BoundEnds(g, p, row, edges[i], reversed); }
    }
    SumOfNone(EdgeShare(g, p, row, false), edges);
    SumOfNone(EdgeShare(g, p, row, true), edges);
  }
}
