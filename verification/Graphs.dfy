/** The property graph that queries read: records and the indexes derived from them. */
module Graphs {

  import opened Orders
  import opened Values
  import opened DistinctKey
  import opened Sums

  type Properties = map<Text, Value>

  /** A stored record: its properties and what is not a property. */
  datatype Record<H> = Record(head: H, properties: Properties)

  /** A node carries labels. */
  type NodeRecord = Record<set<string>>

  datatype Ends = Ends(source: nat, target: nat, kind: string)

  type EdgeRecord = Record<Ends>

  datatype Graph = Graph(
    nodes: map<nat, NodeRecord>,
    edges: map<nat, EdgeRecord>,
    outgoing: map<nat, seq<nat>>,
    incoming: map<nat, seq<nat>>,
    kinds: map<string, seq<nat>>,
    labels: map<string, seq<nat>>)

  /** A missing posting list reads as empty. */
  function Postings<K>(index: map<K, seq<nat>>, key: K): seq<nat> {
    if key in index then index[key] else []
  }

  /** The index lists, for every key, exactly the edges filed under it, once each. */
  ghost predicate Files<K(!new)>(index: map<K, seq<nat>>, edges: map<nat, EdgeRecord>, key: EdgeRecord -> K) {
    forall k :: Lists(Postings(index, k), edges, key, k)
  }

  ghost predicate Lists<K>(ids: seq<nat>, edges: map<nat, EdgeRecord>, key: EdgeRecord -> K, k: K) {
    Distinct(ids) && forall e: nat :: e in ids <==> e in edges && key(edges[e]) == k
  }

  function SourceOf(): EdgeRecord -> nat { (e: EdgeRecord) => e.head.source }
  function TargetOf(): EdgeRecord -> nat { (e: EdgeRecord) => e.head.target }
  function KindOfEdge(): EdgeRecord -> string { (e: EdgeRecord) => e.head.kind }

  /** No edge points to a node that does not exist. */
  ghost predicate NoDangling(nodes: map<nat, NodeRecord>, edges: map<nat, EdgeRecord>) {
    forall e :: e in edges ==> edges[e].head.source in nodes && edges[e].head.target in nodes
  }

  ghost predicate Exact(g: Graph) {
    && Files(g.outgoing, g.edges, SourceOf())
    && Files(g.incoming, g.edges, TargetOf())
    && Files(g.kinds, g.edges, KindOfEdge())
    && NoDangling(g.nodes, g.edges)
    && Labelled(g.labels, g.nodes)
  }

  /** The label index lists, for every label, exactly the nodes that carry it, once each. */
  ghost predicate Labelled(labels: map<string, seq<nat>>, nodes: map<nat, NodeRecord>) {
    forall l :: Carriers(Postings(labels, l), nodes, l)
  }

  ghost predicate Carriers(ids: seq<nat>, nodes: map<nat, NodeRecord>, l: string) {
    Distinct(ids) && forall n: nat :: n in ids <==> n in nodes && l in nodes[n].head
  }

  /** File an edge, which is new, under its key. */
  function Filed<K>(index: map<K, seq<nat>>, k: K, e: nat): map<K, seq<nat>> {
    index[k := Postings(index, k) + [e]]
  }

  /** Take an edge out of its posting list; an empty list is dropped. */
  function Unfiled<K(!new)>(index: map<K, seq<nat>>, k: K, e: nat): map<K, seq<nat>> {
    var rest := Without(Postings(index, k), e);
    if rest == [] then map j | j in index && j != k :: index[j] else index[k := rest]
  }

  lemma FiledKeepsFiles<K(!new)>(index: map<K, seq<nat>>, edges: map<nat, EdgeRecord>, key: EdgeRecord -> K, e: nat, record: EdgeRecord)
    requires Files(index, edges, key) && e !in edges
    ensures Files(Filed(index, key(record), e), edges[e := record], key)
  {
    var after, more := Filed(index, key(record), e), edges[e := record];
    forall k ensures Lists(Postings(after, k), more, key, k) {
      assert Lists(Postings(index, k), edges, key, k);
    }
  }

  lemma UnfiledPostings<K(!new)>(index: map<K, seq<nat>>, k: K, e: nat, j: K)
    ensures Postings(Unfiled(index, k, e), j) == if j == k then Without(Postings(index, k), e) else Postings(index, j)
  {
  }

  lemma ListWithout<K>(ids: seq<nat>, edges: map<nat, EdgeRecord>, key: EdgeRecord -> K, k: K, e: nat)
    requires Lists(ids, edges, key, k)
    ensures Lists(Without(ids, e), edges - {e}, key, k)
  {
    WithoutDistinct(ids, e);
  }

  lemma UnfiledKeepsFiles<K(!new)>(index: map<K, seq<nat>>, edges: map<nat, EdgeRecord>, key: EdgeRecord -> K, e: nat)
    requires Files(index, edges, key) && e in edges
    ensures Files(Unfiled(index, key(edges[e]), e), edges - {e}, key)
  {
    var after, fewer := Unfiled(index, key(edges[e]), e), edges - {e};
    forall k ensures Lists(Postings(after, k), fewer, key, k) {
      assert Lists(Postings(index, k), edges, key, k);
      UnfiledPostings(index, key(edges[e]), e, k);
      ListWithout(Postings(index, k), edges, key, k, e);
      WithoutDistinct(Postings(index, k), e);
    }
  }

  // The label index while the labels of one node are filed one by one.

  lemma UnlabelledNode(labels: map<string, seq<nat>>, nodes: map<nat, NodeRecord>, n: nat, properties: Properties)
    ensures Labelled(labels, nodes - {n}) <==> Labelled(labels, nodes[n := Record({}, properties)])
  {
    var more := nodes[n := Record({}, properties)];
    forall l ensures Carriers(Postings(labels, l), nodes - {n}, l) <==> Carriers(Postings(labels, l), more, l) {
    }
  }

  lemma LabelAdded(labels: map<string, seq<nat>>, nodes: map<nat, NodeRecord>, n: nat, done: set<string>, properties: Properties, l: string)
    requires Labelled(labels, nodes[n := Record(done, properties)]) && l !in done
    ensures Labelled(Filed(labels, l, n), nodes[n := Record(done + {l}, properties)])
  {
    var before, after := nodes[n := Record(done, properties)], nodes[n := Record(done + {l}, properties)];
    assert n !in Postings(labels, l) by { assert Carriers(Postings(labels, l), before, l); }
    forall k ensures Carriers(Postings(Filed(labels, l, n), k), after, k) {
      assert Carriers(Postings(labels, k), before, k);
    }
  }

  lemma CarriersWithout(ids: seq<nat>, before: map<nat, NodeRecord>, after: map<nat, NodeRecord>, l: string, n: nat)
    requires Carriers(ids, before, l) && before.Keys == after.Keys
    requires forall m :: m in before ==> (l in after[m].head <==> l in before[m].head && m != n)
    ensures Carriers(Without(ids, n), after, l)
  {
    WithoutDistinct(ids, n);
  }

  lemma LabelRemoved(labels: map<string, seq<nat>>, nodes: map<nat, NodeRecord>, n: nat, left: set<string>, properties: Properties, l: string)
    requires Labelled(labels, nodes[n := Record(left, properties)]) && l in left
    ensures Labelled(Unfiled(labels, l, n), nodes[n := Record(left - {l}, properties)])
  {
    var before, after := nodes[n := Record(left, properties)], nodes[n := Record(left - {l}, properties)];
    forall k ensures Carriers(Postings(Unfiled(labels, l, n), k), after, k) {
      assert Carriers(Postings(labels, k), before, k);
      UnfiledPostings(labels, l, n, k);
      if k == l {
        CarriersWithout(Postings(labels, l), before, after, l, n);
      } else {
        assert Postings(Unfiled(labels, l, n), k) == Postings(labels, k);
      }
    }
  }

  /** File a new node under each of its labels. */
  method FileNode(labels: map<string, seq<nat>>, n: nat, record: NodeRecord, ghost nodes: map<nat, NodeRecord>) returns (after: map<string, seq<nat>>)
    requires Labelled(labels, nodes) && n !in nodes
    ensures Labelled(after, nodes[n := record])
  {
    after := labels;
    var rest := record.head;
    ghost var done: set<string> := {};
    assert nodes - {n} == nodes;
    UnlabelledNode(labels, nodes, n, record.properties);
    while rest != {}
      invariant rest <= record.head && done == record.head - rest && Labelled(after, nodes[n := Record(done, record.properties)])
      decreases |rest|
    {
      var l :| l in rest;
      LabelAdded(after, nodes, n, done, record.properties, l);
      after := Filed(after, l, n);
      rest, done := rest - {l}, done + {l};
    }
    assert done == record.head;
  }

  /** Take a node out of the posting lists of its labels. */
  method UnfileNode(labels: map<string, seq<nat>>, n: nat, record: NodeRecord, ghost nodes: map<nat, NodeRecord>) returns (after: map<string, seq<nat>>)
    requires Labelled(labels, nodes) && n in nodes && nodes[n] == record
    ensures Labelled(after, nodes - {n})
  {
    after := labels;
    var left := record.head;
    assert nodes[n := Record(left, record.properties)] == nodes;
    while left != {}
      invariant Labelled(after, nodes[n := Record(left, record.properties)])
      decreases |left|
    {
      var l :| l in left;
      LabelRemoved(after, nodes, n, left, record.properties, l);
      after := Unfiled(after, l, n);
      left := left - {l};
    }
    UnlabelledNode(after, nodes, n, record.properties);
  }

  function Sift(ids: seq<nat>, doomed: seq<nat>): (r: seq<nat>)
    ensures forall x: nat :: x in r <==> x in ids && x !in doomed
    decreases |doomed|
  {
    if doomed == [] then ids else Sift(Without(ids, doomed[0]), doomed[1..])
  }

  lemma {:induction false} SiftDistinct(ids: seq<nat>, doomed: seq<nat>)
    requires Distinct(ids)
    ensures Distinct(Sift(ids, doomed))
    decreases |doomed|
  {
    if doomed != [] {
      WithoutDistinct(ids, doomed[0]);
      SiftDistinct(Without(ids, doomed[0]), doomed[1..]);
    }
  }

  /** The records of some of the edges. */
  function Taken(edges: map<nat, EdgeRecord>, some: set<nat>): map<nat, EdgeRecord> {
    map e | e in edges && e in some :: edges[e]
  }

  lemma SiftLists<K>(ids: seq<nat>, doomed: seq<nat>, edges: map<nat, EdgeRecord>, some: set<nat>, key: EdgeRecord -> K, k: K)
    requires Lists(ids, edges, key, k) && Lists(doomed, Taken(edges, some), key, k)
    ensures Lists(Sift(ids, doomed), edges - some, key, k)
  {
    SiftDistinct(ids, doomed);
  }

  /** Every key of the index lists what it should, except that the keys still to be done list
      what they did. */
  ghost predicate Sifting<K(!new)>(index: map<K, seq<nat>>, before: map<K, seq<nat>>, edges: map<nat, EdgeRecord>, key: EdgeRecord -> K, rest: set<K>) {
    forall k :: if k in rest then Postings(index, k) == Postings(before, k) else Lists(Postings(index, k), edges, key, k)
  }

  lemma SiftOne<K(!new)>(index: map<K, seq<nat>>, before: map<K, seq<nat>>, edges: map<nat, EdgeRecord>, some: set<nat>, key: EdgeRecord -> K,
                         rest: set<K>, groups: map<K, seq<nat>>, k: K, after: map<K, seq<nat>>)
    requires Files(before, edges, key) && Files(groups, Taken(edges, some), key) && k in rest
    requires Sifting(index, before, edges - some, key, rest)
    requires forall j :: Postings(after, j) == if j == k then Sift(Postings(index, k), Postings(groups, k)) else Postings(index, j)
    ensures Sifting(after, before, edges - some, key, rest - {k})
  {
    assert Lists(Postings(before, k), edges, key, k) && Lists(Postings(groups, k), Taken(edges, some), key, k);
    SiftLists(Postings(before, k), Postings(groups, k), edges, some, key, k);
  }

  lemma UntouchedKeys<K(!new)>(before: map<K, seq<nat>>, edges: map<nat, EdgeRecord>, some: set<nat>, key: EdgeRecord -> K, groups: map<K, seq<nat>>)
    requires Files(before, edges, key) && Files(groups, Taken(edges, some), key)
    ensures Sifting(before, before, edges - some, key, groups.Keys)
  {
    forall k | k !in groups ensures Lists(Postings(before, k), edges - some, key, k) {
      assert Lists(Postings(before, k), edges, key, k) && Lists(Postings(groups, k), Taken(edges, some), key, k);
      SiftLists(Postings(before, k), [], edges, some, key, k);
    }
  }

  /** Take groups of edges out of their posting lists, one list at a time. */
  method DropBatch<K(!new, ==)>(index: map<K, seq<nat>>, groups: map<K, seq<nat>>, ghost edges: map<nat, EdgeRecord>, ghost some: set<nat>, ghost key: EdgeRecord -> K)
    returns (after: map<K, seq<nat>>)
    requires Files(index, edges, key) && Files(groups, Taken(edges, some), key)
    ensures Files(after, edges - some, key)
  {
    after := index;
    var rest := groups.Keys;
    UntouchedKeys(index, edges, some, key, groups);
    while rest != {}
      invariant rest <= groups.Keys && Sifting(after, index, edges - some, key, rest)
      decreases |rest|
    {
      var k :| k in rest;
      var list := Sift(Postings(after, k), groups[k]);
      ghost var was := after;
      if list == [] {
        after := map j | j in after && j != k :: after[j];
      } else {
        after := after[k := list];
      }
      SiftOne(was, index, edges, some, key, rest, groups, k, after);
      rest := rest - {k};
    }
    assert forall k :: Lists(Postings(after, k), edges - some, key, k);
  }

  ghost predicate Unused<H>(records: map<nat, Record<H>>, next: nat) {
    forall id :: id in records ==> id < next
  }

  datatype Outcome = Created(id: nat) | MissingNode

  /** A write transaction's graph, updated in place. */
  class Writer {

    var nodes: map<nat, NodeRecord>
    var edges: map<nat, EdgeRecord>
    var outgoing: map<nat, seq<nat>>
    var incoming: map<nat, seq<nat>>
    var kinds: map<string, seq<nat>>
    var labels: map<string, seq<nat>>
    var nextNode: nat
    var next: nat

    ghost function Snapshot(): Graph reads this { Graph(nodes, edges, outgoing, incoming, kinds, labels) }

    /** Indexes are exact, and new ids are unused. */
    ghost predicate Valid() reads this {
      var exact := Exact(Snapshot());
      exact && Unused(nodes, nextNode) && Unused(edges, next)
    }

    constructor ()
      ensures Valid() && nodes == map[] && edges == map[]
    {
      nodes, edges, outgoing, incoming, kinds, labels := map[], map[], map[], map[], map[], map[];
      nextNode, next := 1, 1;
    }

    method CreateNode(names: set<string>, properties: Properties) returns (id: nat)
      requires Valid()
      modifies this
      ensures Valid() && edges == old(edges) && id !in old(nodes) && nodes == old(nodes)[id := Record(names, properties)]
    {
      id := nextNode;
      var record := Record(names, properties);
      labels := FileNode(labels, id, record, nodes);
      nodes := nodes[id := record];
      nextNode := nextNode + 1;
    }

    method CreateEdge(source: nat, target: nat, kind: string, properties: Properties) returns (r: Outcome)
      requires Valid()
      modifies this
      ensures Valid() && nodes == old(nodes)
      ensures source !in nodes || target !in nodes ==> r == MissingNode && edges == old(edges)
      ensures source in nodes && target in nodes ==> r.Created? && r.id !in old(edges)
                                                     && edges == old(edges)[r.id := Record(Ends(source, target, kind), properties)]
    {
      if source !in nodes || target !in nodes {
        return MissingNode;
      }
      var id, record := next, Record(Ends(source, target, kind), properties);
      FiledKeepsFiles(outgoing, edges, SourceOf(), id, record);
      FiledKeepsFiles(incoming, edges, TargetOf(), id, record);
      FiledKeepsFiles(kinds, edges, KindOfEdge(), id, record);
      next := next + 1;
      edges := edges[id := record];
      kinds := Filed(kinds, kind, id);
      outgoing := Filed(outgoing, source, id);
      incoming := Filed(incoming, target, id);
      r := Created(id);
    }

    /** Deleting an edge that does not exist changes nothing. */
    method DeleteEdge(e: nat)
      requires Valid()
      modifies this
      ensures Valid() && nodes == old(nodes) && edges == old(edges) - {e}
    {
      if e !in edges {
        return;
      }
      var record := edges[e];
      UnfiledKeepsFiles(outgoing, edges, SourceOf(), e);
      UnfiledKeepsFiles(incoming, edges, TargetOf(), e);
      UnfiledKeepsFiles(kinds, edges, KindOfEdge(), e);
      edges := edges - {e};
      kinds := Unfiled(kinds, record.head.kind, e);
      outgoing := Unfiled(outgoing, record.head.source, e);
      incoming := Unfiled(incoming, record.head.target, e);
    }

    /** Remove a set of edges: records and kinds one by one, adjacency lists in batches. */
    method DeleteEdgesBatch(ids: set<nat>)
      requires ids <= edges.Keys && Indexed(outgoing, incoming, kinds, edges)
      modifies this`edges, this`outgoing, this`incoming, this`kinds
      ensures edges == old(edges) - ids && Indexed(outgoing, incoming, kinds, edges)
    {
      ghost var all := edges;
      var sources, targets;
      edges, kinds, sources, targets := GroupEdges(edges, kinds, ids);
      outgoing := DropBatch(outgoing, sources, all, ids, SourceOf());
      incoming := DropBatch(incoming, targets, all, ids, TargetOf());
    }

    method Unlabel(n: nat)
      requires Labelled(labels, nodes)
      modifies this`labels
      ensures Labelled(labels, nodes - {n})
    {
      if n in nodes {
        labels := UnfileNode(labels, n, nodes[n], nodes);
      } else {
        assert nodes - {n} == nodes;
      }
    }

    /** Deleting a node deletes the edges at either end of it, and nothing else. */
    method DeleteNode(n: nat)
      requires Valid()
      modifies this
      ensures Valid() && nodes == old(nodes) - {n}
      ensures edges == EdgesAway(old(edges), n)
    {
      ghost var before := Snapshot();
      Unlabel(n);
      var out, into := Postings(outgoing, n), Postings(incoming, n);
      var ids := (set e | e in out) + (set e | e in into);
      EdgesAt(before, n, ids);
      nodes := nodes - {n};
      DeleteEdgesBatch(ids);
      NodeDeleted(before, n, outgoing, incoming, kinds, labels);
      outgoing := Dropped(outgoing, n);
      incoming := Dropped(incoming, n);
    }
  }

  ghost predicate Indexed(outgoing: map<nat, seq<nat>>, incoming: map<nat, seq<nat>>, kinds: map<string, seq<nat>>, edges: map<nat, EdgeRecord>) {
    Files(outgoing, edges, SourceOf()) && Files(incoming, edges, TargetOf()) && Files(kinds, edges, KindOfEdge())
  }

  /** The edges with neither end at the node. */
  function EdgesAway(edges: map<nat, EdgeRecord>, n: nat): map<nat, EdgeRecord> {
    map e | e in edges && edges[e].head.source != n && edges[e].head.target != n :: edges[e]
  }

  lemma NodeDeleted(before: Graph, n: nat, outgoing: map<nat, seq<nat>>, incoming: map<nat, seq<nat>>, kinds: map<string, seq<nat>>,
                    labels: map<string, seq<nat>>)
    requires Exact(before) && Indexed(outgoing, incoming, kinds, EdgesAway(before.edges, n)) && Labelled(labels, before.nodes - {n})
    ensures Exact(Graph(before.nodes - {n}, EdgesAway(before.edges, n), Dropped(outgoing, n), Dropped(incoming, n), kinds, labels))
  {
    DropEmpty(outgoing, EdgesAway(before.edges, n), SourceOf(), n);
    DropEmpty(incoming, EdgesAway(before.edges, n), TargetOf(), n);
  }

  /** What has been grouped so far: the edges done are gone, and filed by their ends. */
  ghost predicate Grouped(all: map<nat, EdgeRecord>, done: set<nat>, kinds: map<string, seq<nat>>, sources: map<nat, seq<nat>>, targets: map<nat, seq<nat>>) {
    && Files(kinds, all - done, KindOfEdge())
    && Files(sources, Taken(all, done), SourceOf()) && Files(targets, Taken(all, done), TargetOf())
  }

  lemma GroupNone(all: map<nat, EdgeRecord>, kinds: map<string, seq<nat>>)
    requires Files(kinds, all, KindOfEdge())
    ensures Grouped(all, {}, kinds, map[], map[])
  {
    assert all - {} == all;
  }

  lemma GroupOne(all: map<nat, EdgeRecord>, done: set<nat>, kinds: map<string, seq<nat>>, sources: map<nat, seq<nat>>, targets: map<nat, seq<nat>>, e: nat)
    requires Grouped(all, done, kinds, sources, targets) && e in all && e !in done
    ensures Grouped(all, done + {e}, Unfiled(kinds, all[e].head.kind, e), Filed(sources, all[e].head.source, e), Filed(targets, all[e].head.target, e))
  {
    UnfiledKeepsFiles(kinds, all - done, KindOfEdge(), e);
    assert (all - done) - {e} == all - (done + {e});
    TakeOne(all, done, e);
    FiledKeepsFiles(sources, Taken(all, done), SourceOf(), e, all[e]);
    FiledKeepsFiles(targets, Taken(all, done), TargetOf(), e, all[e]);
  }

  lemma MoveOne(all: map<nat, EdgeRecord>, ids: set<nat>, rest: set<nat>, done: set<nat>, e: nat)
    requires e in rest && rest <= ids && done == ids - rest
    ensures done + {e} == ids - (rest - {e}) && (all - done) - {e} == all - (done + {e})
  {
  }

  /** Remove records and kinds, and group the edges by their ends. */
  method GroupEdges(all: map<nat, EdgeRecord>, kinds0: map<string, seq<nat>>, ids: set<nat>)
    returns (edges: map<nat, EdgeRecord>, kinds: map<string, seq<nat>>, sources: map<nat, seq<nat>>, targets: map<nat, seq<nat>>)
    requires ids <= all.Keys && Files(kinds0, all, KindOfEdge())
    ensures edges == all - ids && Grouped(all, ids, kinds, sources, targets)
  {
    edges, kinds, sources, targets := all, kinds0, map[], map[];
    var rest := ids;
    ghost var done: set<nat> := {};
    GroupNone(all, kinds);
    while rest != {}
      invariant rest <= ids && done == ids - rest && edges == all - done
      invariant Grouped(all, done, kinds, sources, targets)
      decreases |rest|
    {
      var e :| e in rest;
      var record := edges[e];
      GroupOne(all, done, kinds, sources, targets, e);
      MoveOne(all, ids, rest, done, e);
      edges := edges - {e};
      kinds := Unfiled(kinds, record.head.kind, e);
      sources := Filed(sources, record.head.source, e);
      targets := Filed(targets, record.head.target, e);
      rest, done := rest - {e}, done + {e};
    }
    assert done == ids;
  }

  /** The posting lists of a node name exactly the edges at it. */
  lemma EdgesAt(g: Graph, n: nat, ids: set<nat>)
    requires Files(g.outgoing, g.edges, SourceOf()) && Files(g.incoming, g.edges, TargetOf())
    requires forall e: nat :: e in ids <==> e in Postings(g.outgoing, n) || e in Postings(g.incoming, n)
    ensures ids <= g.edges.Keys && forall e :: e in g.edges ==> (e in ids <==> g.edges[e].head.source == n || g.edges[e].head.target == n)
    ensures g.edges - ids == EdgesAway(g.edges, n)
  {
    assert Lists(Postings(g.outgoing, n), g.edges, SourceOf(), n) && Lists(Postings(g.incoming, n), g.edges, TargetOf(), n);
  }

  function Dropped(index: map<nat, seq<nat>>, n: nat): map<nat, seq<nat>> {
    map k | k in index && k != n :: index[k]
  }

  lemma TakeOne(all: map<nat, EdgeRecord>, done: set<nat>, e: nat)
    requires e in all && e !in done
    ensures Taken(all, done + {e}) == Taken(all, done)[e := all[e]] && e !in Taken(all, done)
  {
  }

  /** Dropping the list of a key no edge has changes nothing. */
  lemma DropEmpty(index: map<nat, seq<nat>>, edges: map<nat, EdgeRecord>, key: EdgeRecord -> nat, n: nat)
    requires Files(index, edges, key) && forall e :: e in edges ==> key(edges[e]) != n
    ensures Files(Dropped(index, n), edges, key)
  {
    var after := Dropped(index, n);
    forall k: nat ensures Lists(Postings(after, k), edges, key, k) {
      assert Lists(Postings(index, k), edges, key, k);
    }
  }
}
