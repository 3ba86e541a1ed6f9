/** Mutation of the page-backed vector index: insert, update, tombstone, re-add and the
    reset of an index whose nodes are all deleted. */
module VectorIndex {
  import opened Orders
  import Sums
  import opened VectorGraph
  import opened VectorSearch
  import opened VectorLinks

  datatype Meta = Meta(entryId: Id, lastId: Id, maxLevel: nat, count: nat, deletedCount: nat, mutations: nat)

  ghost function Deleted(g: Graph): set<Id> {
    set id | id in g && g[id].deleted
  }

  ghost predicate MetaOk(g: Graph, meta: Meta) {
    && meta.count == |g| && meta.deletedCount == |Deleted(g)|
    && (g != map[] ==>
          && meta.entryId in g && g[meta.entryId].level == meta.maxLevel && meta.lastId in g
          && forall id :: id in g ==> g[id].level <= meta.maxLevel && id <= meta.lastId)
  }

  /** The live part of the index: what a search may return. */
  ghost function LiveVectors(g: Graph): map<Id, Vector> {
    map id | id in g && !g[id].deleted :: g[id].vector
  }

  /** Where the descent to a layer arrives: at the entry node, or at a local minimum of the layer
      above. */
  ghost predicate Arrives(g: Graph, dist: Metric, meta: Meta, query: Vector, level: nat, entry: Id) {
    if level < meta.maxLevel then LocalMinimum(g, dist, query, entry, level + 1) else entry == meta.entryId
  }

  /** Live nodes a search from `start` could return. */
  ghost predicate Findable(g: Graph, start: Id, v: Id) {
    v in LiveVectors(g) && v != 0 && Reachable(g, 0, start, v)
  }

  function At(g: Graph, dist: Metric, query: Vector, v: Id): Candidate
    requires v in g
  {
    Candidate(v, dist(query, g[v].vector))
  }

  /** Nothing found is farther than y. */
  ghost predicate Beyond(found: seq<Candidate>, y: Candidate) {
    forall i :: 0 <= i < |found| ==> found[i].distance <= y.distance
  }

  /** A short answer is complete. */
  ghost predicate ShortIsComplete(g: Graph, dist: Metric, query: Vector, start: Id, k: nat, found: seq<Candidate>) {
    |found| < k ==> forall v :: Findable(g, start, v) ==> At(g, dist, query, v) in found
  }

  /** No link of a found node leads to a live node nearer than a found one. */
  ghost predicate NoNearerLink(g: Graph, dist: Metric, query: Vector, found: seq<Candidate>) {
    forall x, v :: x in found && LiveLink(g, x.id, v) && At(g, dist, query, v) !in found ==> Beyond(found, At(g, dist, query, v))
  }

  /** Nothing reachable is nearer than a found node. */
  ghost predicate NothingMissed(g: Graph, dist: Metric, query: Vector, start: Id, found: seq<Candidate>) {
    forall v :: Findable(g, start, v) && At(g, dist, query, v) !in found ==> Beyond(found, At(g, dist, query, v))
  }

  /** What a search finds from where the descent arrives; with ef covering the index nothing is
      missed. */
  ghost predicate Finds(g: Graph, dist: Metric, query: Vector, start: Id, k: nat, ef: nat, found: seq<Candidate>) {
    && ShortIsComplete(g, dist, query, start, k, found)
    && NoNearerLink(g, dist, query, found)
    && (ef >= |g| ==> NothingMissed(g, dist, query, start, found))
  }

  ghost predicate LiveLink(g: Graph, x: Id, v: Id) { HasLevel(g, x, 0) && v in g[x].neighbors[0] && v in LiveVectors(g) && v != 0 }

  lemma LayerComplete(c: Ctx, all: seq<Candidate>, visited: set<Id>, k: nat, found: seq<Candidate>)
    requires LayerResult(c, all, visited) && c.level == 0 && c.exclude == 0 && k <= c.ef
    requires found == if |all| < k then all else all[..k]
    ensures ShortIsComplete(c.g, c.dist, c.query, c.entry, k, found)
  {
    forall v | |found| < k && Findable(c.g, c.entry, v) ensures c.At(v) in found { assert c.Eligible(v); }
  }

  lemma LayerLinksFarther(c: Ctx, all: seq<Candidate>, visited: set<Id>, found: seq<Candidate>)
    requires LayerResult(c, all, visited) && c.level == 0 && c.exclude == 0 && found <= all
    ensures NoNearerLink(c.g, c.dist, c.query, found)
  {
    forall x, v | x in found && LiveLink(c.g, x.id, v) && c.At(v) !in found ensures Beyond(found, c.At(v)) {
      LinkIsFarther(c, all, visited, found, x, v);
    }
  }

  lemma LayerMissesNothing(c: Ctx, all: seq<Candidate>, visited: set<Id>, found: seq<Candidate>)
    requires LayerResult(c, all, visited) && c.level == 0 && c.exclude == 0 && found <= all && c.ef >= |c.g|
    ensures NothingMissed(c.g, c.dist, c.query, c.entry, found)
  {
    LiveFits(c);
    forall v | Findable(c.g, c.entry, v) && c.At(v) !in found ensures Beyond(found, c.At(v)) {
      assert c.Eligible(v);
      CutIsFarther(all, found, c.At(v));
    }
  }

  lemma LayerFinds(c: Ctx, all: seq<Candidate>, visited: set<Id>, k: nat, ef: nat, found: seq<Candidate>)
    requires LayerResult(c, all, visited) && c.level == 0 && c.exclude == 0 && k <= c.ef && ef <= c.ef
    requires found == if |all| < k then all else all[..k]
    ensures Finds(c.g, c.dist, c.query, c.entry, k, ef, found)
  {
    LayerComplete(c, all, visited, k, found);
    LayerLinksFarther(c, all, visited, found);
    if ef >= |c.g| { LayerMissesNothing(c, all, visited, found); }
  }

  lemma LinkIsFarther(c: Ctx, all: seq<Candidate>, visited: set<Id>, found: seq<Candidate>, x: Candidate, v: Id)
    requires LayerResult(c, all, visited) && c.level == 0 && c.exclude == 0 && found <= all && x in found
    requires LiveLink(c.g, x.id, v) && c.At(v) !in found
    ensures Beyond(found, c.At(v))
  {
    assert x in all;
    assert Followed(c, x.id, visited);
    assert v in visited && c.Eligible(v);
    if c.At(v) in all {
      CutIsFarther(all, found, c.At(v));
    } else {
      forall i | 0 <= i < |found| ensures found[i].distance <= c.At(v).distance { assert found[i] == all[i] && all[i] in all; }
    }
  }

  function NextEntry(links: seq<Id>, entry: Id): Id { if links != [] then links[0] else entry }

  /** Does the search of a level, from an entry, give these links? */
  type Finder = (nat, Id, seq<Id>) -> bool

  ghost function FinderOf(g: Graph, dist: Metric, m: nat, id: Id, vector: Vector): Finder {
    (level: nat, entry: Id, links: seq<Id>) => FindsLinks(Ctx(g, dist, vector, entry, level, CONSTRUCTION_EF, id), m, links)
  }

  /** Where the search of a level starts, what it finds, and where the next level down starts. */
  ghost predicate WiredAt(finds: Finder, neighbors: seq<seq<Id>>, entries: seq<Id>, l: nat)
    requires l < |neighbors| && l < |entries|
  {
    finds(l, entries[l], neighbors[l]) && (l > 0 ==> entries[l - 1] == NextEntry(neighbors[l], entries[l]))
  }

  /** A newcomer's links, found level by level from the first entry down to `low`; above the top of
      the index it has none. */
  ghost predicate Wired(finds: Finder, first: Id, neighbors: seq<seq<Id>>, entries: seq<Id>, low: nat) {
    && 0 < |entries| <= |neighbors| && entries[|entries| - 1] == first
    && (forall l :: |entries| <= l < |neighbors| ==> neighbors[l] == [])
    && (forall l :: low <= l < |entries| ==> WiredAt(finds, neighbors, entries, l))
  }

  function Entered(entries: seq<Id>, level: nat, next: Id): (r: seq<Id>)
    requires level <= |entries|
    ensures |r| == |entries|
  {
    if level > 0 then entries[level - 1 := next] else entries
  }

  lemma WiredStep(finds: Finder, first: Id, neighbors: seq<seq<Id>>, entries: seq<Id>, level: nat, links: seq<Id>)
    requires level < |entries| && Wired(finds, first, neighbors, entries, level + 1) && finds(level, entries[level], links)
    ensures Wired(finds, first, neighbors[level := links], Entered(entries, level, NextEntry(links, entries[level])), level)
  {
    var more, entered := neighbors[level := links], Entered(entries, level, NextEntry(links, entries[level]));
    forall l | level <= l < |entries| ensures WiredAt(finds, more, entered, l) {
      if l > level { assert WiredAt(finds, neighbors, entries, l); }
    }
  }

  /** A newcomer linked at levels from `low` up: which levels, from where, with which result. */
  datatype Linking = Linking(base: Graph, dist: Metric, m: nat, id: Id, vector: Vector, top: nat, finds: Finder, first: Id, neighbors: seq<seq<Id>>, entries: seq<Id>, low: nat)

  /** The graph is the base with the newcomer wired in so far, and in order. */
  ghost predicate LinkedTo(k: Linking, g: Graph) {
    var orderly, traced := Orderly(k, g), Traced(k, g);
    orderly && traced
  }

  ghost predicate Orderly(k: Linking, g: Graph) {
    var p := Pending(k.id, k.top, k.low);
    var sound, same, own := GraphOk(g, k.m, p), SameRecords(k.base, g), OwnLinksOk(g, k.m, k.id, k.top, k.neighbors, p);
    sound && same && own
  }

  ghost predicate Traced(k: Linking, g: Graph) {
    var wired := Wired(k.finds, k.first, k.neighbors, k.entries, k.low);
    k.low <= |k.entries| && wired && g == Woven(k.base, k.dist, k.m, k.id, k.vector, k.neighbors, k.low)
  }

  ghost predicate OwnLinksOk(g: Graph, m: nat, id: Id, top: nat, neighbors: seq<seq<Id>>, p: Pending) {
    |neighbors| == top + 1 && AllLinksOk(g, m, id, top, neighbors, p)
  }

  lemma LinkingStarts(k: Linking)
    requires GraphOk(k.base, k.m, NOBODY) && k.low == |k.entries| && 0 < |k.entries| <= k.top + 1 && k.entries[|k.entries| - 1] == k.first
    requires OwnLinksOk(k.base, k.m, k.id, k.top, k.neighbors, Pending(k.id, k.top, k.top + 1))
    requires forall l :: |k.entries| <= l <= k.top ==> k.neighbors[l] == []
    ensures LinkedTo(k, k.base)
  {
    Weaken(k.base, k.m, NOBODY, Pending(k.id, k.top, k.low));
    AllLinksWeaken(k.base, k.m, k.id, k.top, k.neighbors, Pending(k.id, k.top, k.top + 1), Pending(k.id, k.top, k.low));
    WovenNothing(k.base, k.dist, k.m, k.id, k.vector, k.neighbors, k.low);
  }

  function Lower(k: Linking, links: seq<Id>): Linking
    requires 0 < k.low <= |k.entries| && k.low <= |k.neighbors|
  {
    var level := k.low - 1;
    k.(neighbors := k.neighbors[level := links], entries := Entered(k.entries, level, NextEntry(links, k.entries[level])), low := level)
  }

  /** Looking for the links of the next level down. */
  function Seeking(k: Linking, g: Graph): Ctx
    requires 0 < k.low <= |k.entries|
  {
    Ctx(g, k.dist, k.vector, k.entries[k.low - 1], k.low - 1, CONSTRUCTION_EF, k.id)
  }

  /** A level was linked: the graph is joined, and all is in order. */
  ghost predicate LevelLinked(c: Ctx, m: nat, top: nat, links: seq<Id>, h: Graph) {
    var fits, joined := LevelFits(c, m, top, links, h), h == Joined(c.g, c.dist, m, links, c.exclude, c.query, c.level);
    fits && joined
  }

  ghost predicate LevelFits(c: Ctx, m: nat, top: nat, links: seq<Id>, h: Graph) {
    var p := Pending(c.exclude, top, c.level);
    var sound, same, fit := GraphOk(h, m, p), SameRecords(c.g, h), LinksOk(h, m, c.exclude, c.level, links, p);
    sound && same && fit
  }

  lemma FinderApplies(c: Ctx, m: nat, links: seq<Id>)
    requires FindsLinks(c, m, links) && c.ef == CONSTRUCTION_EF
    ensures FinderOf(c.g, c.dist, m, c.exclude, c.query)(c.level, c.entry, links)
  {
    assert c == Ctx(c.g, c.dist, c.query, c.entry, c.level, CONSTRUCTION_EF, c.exclude);
  }

  /** What the search of a layer finds while higher layers are wired, it finds in the base. */
  lemma FoundInBase(base: Graph, m: nat, neighbors: seq<seq<Id>>, low: nat, c: Ctx, links: seq<Id>)
    requires c.ef == CONSTRUCTION_EF && c.level < low && c.g == Woven(base, c.dist, m, c.exclude, c.query, neighbors, low)
    requires FindsLinks(c, m, links)
    ensures FinderOf(base, c.dist, m, c.exclude, c.query)(c.level, c.entry, links)
  {
    WovenFinds(base, c.dist, m, c.exclude, c.query, neighbors, low, c, links);
    FinderApplies(c.(g := base), m, links);
  }

  lemma OrderlyStep(k: Linking, g: Graph, h: Graph, links: seq<Id>)
    requires 0 < k.low <= |k.entries| && k.low <= |k.neighbors| && Orderly(k, g) && LevelFits(Seeking(k, g), k.m, k.top, links, h)
    ensures Orderly(Lower(k, links), h)
  {
    AllLinksStep(g, h, k.m, k.id, k.top, k.neighbors, k.low - 1, links);
  }

  lemma TracedStep(k: Linking, g: Graph, h: Graph, links: seq<Id>)
    requires 0 < k.low <= |k.entries| && k.low <= |k.neighbors| && Traced(k, g)
    requires h == Joined(g, k.dist, k.m, links, k.id, k.vector, k.low - 1) && k.finds(k.low - 1, k.entries[k.low - 1], links)
    ensures Traced(Lower(k, links), h)
  {
    WiredStep(k.finds, k.first, k.neighbors, k.entries, k.low - 1, links);
    WovenStep(k.base, k.dist, k.m, k.id, k.vector, k.neighbors, k.low - 1, links);
  }

  lemma LinkingStep(k: Linking, g: Graph, h: Graph, links: seq<Id>)
    requires 0 < k.low <= |k.entries| && k.low <= |k.neighbors| && LinkedTo(k, g)
    requires LevelLinked(Seeking(k, g), k.m, k.top, links, h) && k.finds(k.low - 1, k.entries[k.low - 1], links)
    ensures LinkedTo(Lower(k, links), h)
  {
    OrderlyStep(k, g, h, links);
    TracedStep(k, g, h, links);
  }

  /** Every node that a node links to links back, unless its list is full. */
  ghost predicate LinkedBack(g: Graph, m: nat, id: Id) {
    id in g && forall l: nat, x :: l < |g[id].neighbors| && x in g[id].neighbors[l] ==> Answers(g, m, id, l, x)
  }

  ghost predicate Answers(g: Graph, m: nat, id: Id, l: nat, x: Id) {
    HasLevel(g, x, l) && (id in g[x].neighbors[l] || |g[x].neighbors[l]| == MaxLinks(m, l))
  }

  /** The graph after `id` was placed in it: its links are those found level by level from where
      the descent arrives, its neighbours answer as their lists allow, and nothing else changes. */
  ghost predicate Placed(g: Graph, dist: Metric, m: nat, meta: Meta, id: Id, record: Node, entries: seq<Id>, h: Graph) {
    && id in h && |h[id].neighbors| == record.level + 1
    && |entries| == (if record.level < meta.maxLevel then record.level else meta.maxLevel) + 1
    && Arrives(g, dist, meta, record.vector, record.level, entries[|entries| - 1])
    && Wired(FinderOf(g, dist, m, id, record.vector), entries[|entries| - 1], h[id].neighbors, entries, 0)
    && h == Woven(g, dist, m, id, record.vector, h[id].neighbors, 0)[id := record.(neighbors := h[id].neighbors)]
  }

  lemma PlacedAnswer(g: Graph, h: Graph, dist: Metric, m: nat, id: Id, node: Node, l: nat, x: Id)
    requires GraphOk(g, m, NOBODY) && GraphOk(h, m, NOBODY) && m >= 1
    requires h == Woven(g, dist, m, id, node.vector, node.neighbors, 0)[id := node]
    requires l < |node.neighbors| && x in node.neighbors[l]
    ensures Answers(h, m, id, l, x)
  {
    assert id in h && h[id] == node;
    assert NodeOk(h, m, id, node, NOBODY);
    assert LinksOk(h, m, id, l, node.neighbors[l], NOBODY);
    assert NodeOk(h, m, x, h[x], NOBODY) && NodeOk(g, m, x, g[x], NOBODY);
    assert LinksOk(g, m, x, l, g[x].neighbors[l], NOBODY);
    NamesOrFull(g, dist, m, x, l, id, node.vector);
  }

  lemma PlacedBack(g: Graph, h: Graph, dist: Metric, m: nat, id: Id, node: Node)
    requires GraphOk(g, m, NOBODY) && GraphOk(h, m, NOBODY) && m >= 1
    requires h == Woven(g, dist, m, id, node.vector, node.neighbors, 0)[id := node]
    ensures LinkedBack(h, m, id)
  {
    forall l: nat, x | l < |node.neighbors| && x in node.neighbors[l] ensures Answers(h, m, id, l, x) {
      PlacedAnswer(g, h, dist, m, id, node, l, x);
    }
  }

  function Revived(g: Graph, id: Id, vector: Vector): Graph
    requires id in g
  {
    g[id := g[id].(vector := vector, deleted := false)]
  }

  lemma FirstNode(m: nat, id: Id, node: Node)
    requires |node.neighbors| == node.level + 1 && forall l :: 0 <= l <= node.level ==> node.neighbors[l] == []
    ensures GraphOk(map[id := node], m, NOBODY) && LinkedBack(map[id := node], m, id)
  {
  }

  /** Writing the record of a newcomer linked at all levels completes the graph. */
  lemma Completed(k: Linking, g: Graph, node: Node)
    requires LinkedTo(k, g) && k.low == 0 && GraphOk(k.base, k.m, NOBODY) && k.m >= 1
    requires node.level == k.top && node.neighbors == k.neighbors && node.vector == k.vector
    requires k.id in k.base ==> k.base[k.id].level == k.top
    ensures SameRecords(k.base, g) && GraphOk(g[k.id := node], k.m, NOBODY) && LinkedBack(g[k.id := node], k.m, k.id)
  {
    WriteKeeps(g, k.m, Pending(k.id, k.top, 0), node);
    PlacedBack(k.base, g[k.id := node], k.dist, k.m, k.id, node);
  }

  lemma PlacedAs(k: Linking, g: Graph, node: Node, record: Node, meta: Meta)
    requires LinkedTo(k, g) && k.low == 0 && node == record.(neighbors := k.neighbors) && node.vector == k.vector && node.level == k.top
    requires k.finds == FinderOf(k.base, k.dist, k.m, k.id, k.vector)
    requires |k.entries| == (if k.top < meta.maxLevel then k.top else meta.maxLevel) + 1 && Arrives(k.base, k.dist, meta, k.vector, k.top, k.first)
    ensures Placed(k.base, k.dist, k.m, meta, k.id, record, k.entries, g[k.id := node])
  {
  }

  /** Some nodes were asked for a place; the graph is in order. */
  ghost predicate Joining(base: Graph, g: Graph, dist: Metric, m: nat, links: seq<Id>, id: Id, vector: Vector, level: nat, p: Pending) {
    var sound, same := GraphOk(g, m, p), SameRecords(base, g);
    sound && same && g == Joined(base, dist, m, links, id, vector, level)
  }

  class Index {
    const dist: Metric
    const levelOf: Id -> nat
    const m: nat
    var nodes: Graph
    var meta: Meta

    ghost predicate Valid()
      reads this
    {
      2 <= m <= 64 && GraphOk(nodes, m, NOBODY) && MetaOk(nodes, meta)
    }

    constructor (dist: Metric, levelOf: Id -> nat, m: nat)
      requires 2 <= m <= 64
      ensures Valid() && nodes == map[] && this.m == m && this.dist == dist && this.levelOf == levelOf
    {
      this.dist, this.levelOf, this.m := dist, levelOf, m;
      nodes, meta := map[], Meta(0, 0, 0, 0, 0, 0);
    }

    /** Add `neighbor` to one link list, re-selecting when the list is full. */
    method Connect(id: Id, neighbor: Id, vector: Vector, level: nat, ghost p: Pending)
      requires 2 <= m <= 64 && GraphOk(nodes, m, p) && Target(nodes, level, neighbor, p) && id != neighbor
      requires p.from > p.level || p.id == neighbor
      modifies this`nodes
      ensures GraphOk(nodes, m, p) && SameRecords(old(nodes), nodes)
      ensures nodes == if HasLevel(old(nodes), id, level) then Relinked(old(nodes), id, level, LinksWith(old(nodes), dist, m, id, level, neighbor, vector)) else old(nodes)
    {
      if id !in nodes || level >= |nodes[id].neighbors| {
        return;
      }
      var links := nodes[id].neighbors[level];
      assert LinksOk(nodes, m, id, level, links, p);
      if neighbor in links {
        assert nodes[id].neighbors[level := links] == nodes[id].neighbors;
        return;
      }
      if |links| < MaxLinks(m, level) {
        links := links + [neighbor];
      } else {
        links := Reselect(id, neighbor, vector, level, p);
      }
      RelinkKeeps(nodes, m, p, id, level, links);
      nodes := nodes[id := nodes[id].(neighbors := nodes[id].neighbors[level := links])];
    }

    /** Choose the links of a full node among the old ones and the newcomer. */
    method Reselect(id: Id, neighbor: Id, vector: Vector, level: nat, ghost p: Pending) returns (links: seq<Id>)
      requires 2 <= m <= 64 && Target(nodes, level, neighbor, p) && id != neighbor
      requires p.from > p.level || p.id == neighbor
      requires id in nodes && level < |nodes[id].neighbors| && neighbor !in nodes[id].neighbors[level]
      requires LinksOk(nodes, m, id, level, nodes[id].neighbors[level], p) && |nodes[id].neighbors[level]| >= MaxLinks(m, level)
      ensures LinksOk(nodes, m, id, level, links, p)
      ensures links == LinksWith(nodes, dist, m, id, level, neighbor, vector)
    {
      var sorted := SortBy(ByDistance(), Rivals(nodes, dist, id, level, neighbor, vector));
      RivalsKnown(nodes, m, dist, id, level, neighbor, vector, p);
      var r := SelectNeighbors(nodes, dist, sorted, MaxLinks(m, level), map[neighbor := vector]);
      ChoiceIsSelection(Choosing(Vectors(nodes, map[neighbor := vector]), dist, sorted), MaxLinks(m, level));
      links := Ids(r.value);
      RivalLinks(nodes, m, dist, id, level, neighbor, vector, p, r.value);
    }

    /** Connect every candidate to `id`. */
    method ConnectAll(candidates: seq<Candidate>, id: Id, vector: Vector, level: nat, ghost p: Pending)
      requires 2 <= m <= 64 && GraphOk(nodes, m, p) && p.id == id && Target(nodes, level, id, p)
      requires Distinct(Ids(candidates)) && id !in Ids(candidates)
      modifies this`nodes
      ensures GraphOk(nodes, m, p) && SameRecords(old(nodes), nodes)
      ensures nodes == Joined(old(nodes), dist, m, Ids(candidates), id, vector, level)
    {
      ghost var ids, base := Ids(candidates), nodes;
      JoinedNone(nodes, dist, m, id, vector, level);
      assert ids[..0] == [];
      for i := 0 to |candidates|
        invariant Joining(base, nodes, dist, m, ids[..i], id, vector, level, p)
      {
        assert ids[..i + 1] == ids[..i] + [ids[i]] && ids[i] !in ids[..i];
        ConnectOne(ids[..i], candidates[i].id, id, vector, level, base, p);
      }
      assert ids[..|candidates|] == ids;
    }

    method ConnectOne(ghost done: seq<Id>, x: Id, id: Id, vector: Vector, level: nat, ghost base: Graph, ghost p: Pending)
      requires 2 <= m <= 64 && p.id == id && Target(base, level, id, p) && x != id && x !in done
      requires Joining(base, nodes, dist, m, done, id, vector, level, p)
      modifies this`nodes
      ensures Joining(base, nodes, dist, m, done + [x], id, vector, level, p)
    {
      JoinedOne(base, dist, m, done, x, id, vector, level);
      Connect(x, id, vector, level, p);
    }

    /** Search one layer for `id`, choose its links there and link back. */
    method LinkLevel(id: Id, vector: Vector, entry: Id, level: nat, top: nat) returns (links: seq<Id>, next: Id)
      requires 2 <= m <= 64 && level <= top && GraphOk(nodes, m, Pending(id, top, level + 1))
      requires id in nodes ==> nodes[id].level == top
      requires entry in nodes && nodes[entry].level >= level
      modifies this`nodes
      ensures LevelLinked(Ctx(old(nodes), dist, vector, entry, level, CONSTRUCTION_EF, id), m, top, links, nodes)
      ensures FindsLinks(Ctx(old(nodes), dist, vector, entry, level, CONSTRUCTION_EF, id), m, links)
      ensures next in nodes && nodes[next].level >= level && next == NextEntry(links, entry)
    {
      ghost var before, p := nodes, Pending(id, top, level);
      ClosedBelowPending(nodes, m, Pending(id, top, level + 1), level);
      var c := Ctx(nodes, dist, vector, entry, level, CONSTRUCTION_EF, id);
      var found;
      ghost var visited;
      found, visited := Layer(c);
      var candidates := found.value;
      if |candidates| > MaxLinks(m, level) {
        forall i | 0 <= i < |candidates| ensures candidates[i].id in nodes {
          assert candidates[i] in candidates;
        }
        var chosen := SelectNeighbors(nodes, dist, candidates, MaxLinks(m, level), map[]);
        ChoiceIsSelection(Choosing(Vectors(nodes, map[]), dist, candidates), MaxLinks(m, level));
        candidates := chosen.value;
      }
      assert candidates == Trimmed(c, m, found.value);
      links := Ids(candidates);
      next := if candidates != [] then candidates[0].id else entry;
      LayerLinks(c, m, found.value, visited, candidates, Pending(id, top, level + 1));
      Weaken(nodes, m, Pending(id, top, level + 1), p);
      ConnectAll(candidates, id, vector, level, p);
      LinksShape(before, nodes, m, id, level, links, p);
    }

    /** Greedy descent through the layers above `level`. */
    method Descend(vector: Vector, level: nat) returns (entry: Id)
      requires Valid() && nodes != map[]
      ensures entry in nodes && nodes[entry].level >= (if level < meta.maxLevel then level else meta.maxLevel)
      ensures Arrives(nodes, dist, meta, vector, level, entry)
    {
      entry := meta.entryId;
      var l: nat := meta.maxLevel;
      while l > level
        invariant l <= meta.maxLevel && Arrives(nodes, dist, meta, vector, l, entry)
        invariant entry in nodes && nodes[entry].level >= l && l >= (if level < meta.maxLevel then level else meta.maxLevel)
        decreases l
      {
        ClosedBelowPending(nodes, m, Pending(0, 0, l + 1), l) by {
          Weaken(nodes, m, NOBODY, Pending(0, 0, l + 1));
        }
        var r := Greedy(nodes, dist, vector, entry, l);
        entry := r.value;
        assert NodeOk(nodes, m, entry, nodes[entry], NOBODY);
        l := l - 1;
      }
    }

    /** Link `id` at every level it shares with the index, from the top down. */
    method LinkAll(id: Id, vector: Vector, top: nat, start: seq<seq<Id>>) returns (neighbors: seq<seq<Id>>, ghost k: Linking)
      requires Valid() && nodes != map[] && OwnLinksOk(nodes, m, id, top, start, Pending(id, top, top + 1))
      requires id in nodes ==> nodes[id].level == top
      requires forall l :: meta.maxLevel < l <= top ==> start[l] == []
      modifies this`nodes
      ensures LinkedTo(k, nodes) && k == Linking(old(nodes), dist, m, id, vector, top, k.finds, k.first, neighbors, k.entries, 0)
      ensures k.finds == FinderOf(old(nodes), dist, m, id, vector)
      ensures |k.entries| == (if top < meta.maxLevel then top else meta.maxLevel) + 1 && Arrives(old(nodes), dist, meta, vector, top, k.first)
    {
      var entry := Descend(vector, top);
      var shared := (if top < meta.maxLevel then top else meta.maxLevel) + 1;
      k := Linking(nodes, dist, m, id, vector, top, FinderOf(nodes, dist, m, id, vector), entry, start, seq(shared, _ => entry), shared);
      assert k.entries[shared - 1] == entry;
      LinkingStarts(k);
      neighbors, k := LinkDown(id, vector, entry, shared, top, start, k);
    }

    method LinkDown(id: Id, vector: Vector, first: Id, shared: nat, top: nat, start: seq<seq<Id>>, ghost begun: Linking)
      returns (neighbors: seq<seq<Id>>, ghost k: Linking)
      requires 2 <= m <= 64 && LinkedTo(begun, nodes) && 0 < shared <= |begun.entries| && shared <= top + 1 && |start| == top + 1
      requires begun.dist == dist && begun.m == m && begun.id == id && begun.vector == vector && begun.top == top && begun.low == shared
      requires begun.finds == FinderOf(begun.base, dist, m, id, vector) && begun.neighbors == start && (id in nodes ==> nodes[id].level == top)
      requires first in nodes && nodes[first].level >= shared - 1 && first == begun.entries[shared - 1]
      modifies this`nodes
      ensures LinkedTo(k, nodes) && k == begun.(neighbors := neighbors, entries := k.entries, low := 0) && |k.entries| == |begun.entries|
    {
      var l, entry := shared, first;
      neighbors, k := start, begun;
      while l > 0
        invariant k == begun.(neighbors := neighbors, entries := k.entries, low := l) && l <= |k.entries| == |begun.entries| && l <= |neighbors| == top + 1
        invariant LinkedTo(k, nodes) && (id in nodes ==> nodes[id].level == top)
        invariant entry in nodes && nodes[entry].level >= l - 1 && (l > 0 ==> entry == k.entries[l - 1])
        decreases l
      {
        l := l - 1;
        var links, next := LinkNext(id, vector, entry, l, top, k);
        k := Lower(k, links);
        neighbors, entry := neighbors[l := links], next;
      }
    }

    /** Link `id` at the next level down. */
    method LinkNext(id: Id, vector: Vector, entry: Id, level: nat, top: nat, ghost k: Linking) returns (links: seq<Id>, next: Id)
      requires 2 <= m <= 64 && LinkedTo(k, nodes) && level < |k.entries| && level < |k.neighbors|
      requires k.dist == dist && k.m == m && k.id == id && k.vector == vector && k.top == top && k.low == level + 1
      requires level <= top && (id in nodes ==> nodes[id].level == top) && k.finds == FinderOf(k.base, dist, m, id, vector)
      requires entry in nodes && nodes[entry].level >= level && entry == k.entries[level]
      modifies this`nodes
      ensures LinkedTo(Lower(k, links), nodes) && next in nodes && nodes[next].level >= level && next == NextEntry(links, entry)
      ensures SameRecords(old(nodes), nodes)
    {
      ghost var before := nodes;
      assert Seeking(k, nodes) == Ctx(nodes, dist, vector, entry, level, CONSTRUCTION_EF, id);
      links, next := LinkLevel(id, vector, entry, level, top);
      FoundInBase(k.base, m, k.neighbors, k.low, Ctx(before, dist, vector, entry, level, CONSTRUCTION_EF, id), links);
      LinkingStep(k, before, nodes, links);
    }

    /** A new id: find its links level by level, let the neighbours link back first, and
        write the record last. */
    method Insert(id: Id, vector: Vector) returns (ghost entries: seq<Id>)
      requires Valid() && id !in nodes
      modifies this
      ensures Valid() && meta.mutations == old(meta.mutations)
      ensures LiveVectors(nodes) == old(LiveVectors(nodes))[id := vector]
      ensures LinkedBack(nodes, m, id)
      ensures old(nodes) == map[] ==> nodes == map[id := Node(levelOf(id), seq(levelOf(id) + 1, _ => []), vector, false)]
      ensures old(nodes) != map[] ==> Placed(old(nodes), dist, m, old(meta), id, Node(levelOf(id), [], vector, false), entries, nodes)
    {
      ghost var before := nodes;
      var node := Node(levelOf(id), seq(levelOf(id) + 1, _ => []), vector, false);
      entries := [];
      if meta.count == 0 {
        EmptyGraph(nodes, meta, m, NOBODY);
        FirstNode(m, id, node);
      } else {
        NonEmptyGraph(nodes, meta);
        ghost var k;
        var neighbors;
        neighbors, k := LinkAll(id, vector, node.level, node.neighbors);
        node := node.(neighbors := neighbors);
        Completed(k, nodes, node);
        PlacedAs(k, nodes, node, Node(levelOf(id), [], vector, false), meta);
        entries := k.entries;
      }
      RecordAdded(before, nodes, id, node);
      MetaAfterInsert(before, nodes[id := node], meta, id, node.level);
      meta := InsertedMeta(meta, id, node.level);
      nodes := nodes[id := node];
    }

    /** A known id gets a new vector: it becomes live and all its links are chosen again. */
    method Readd(id: Id, vector: Vector) returns (ghost entries: seq<Id>)
      requires Valid() && id in nodes
      modifies this
      ensures Valid() && meta.mutations == old(meta.mutations) + 1
      ensures LiveVectors(nodes) == old(LiveVectors(nodes))[id := vector]
      ensures LinkedBack(nodes, m, id)
      ensures Placed(old(Revived(nodes, id, vector)), dist, m, old(meta), id, old(nodes[id]).(vector := vector, deleted := false), entries, nodes)
    {
      Revive(id, vector);
      ghost var written := nodes;
      var node := nodes[id];
      OwnLinks(nodes, m, id);
      ghost var k;
      var neighbors;
      neighbors, k := LinkAll(id, vector, node.level, node.neighbors);
      node := node.(neighbors := neighbors);
      Completed(k, nodes, node);
      PlacedAs(k, nodes, node, written[id], old(meta));
      entries := k.entries;
      RecordReplaced(written, nodes, id, node);
      MetaKept(written, nodes[id := node], meta);
      nodes := nodes[id := node];
    }

    /** Write the new vector without touching any link. */
    method Revive(id: Id, vector: Vector)
      requires Valid() && id in nodes
      modifies this
      ensures Valid() && id in nodes && meta.mutations == old(meta.mutations) + 1
      ensures LiveVectors(nodes) == old(LiveVectors(nodes))[id := vector]
      ensures nodes == old(Revived(nodes, id, vector))
      ensures meta.entryId == old(meta.entryId) && meta.maxLevel == old(meta.maxLevel)
    {
      var node := nodes[id].(vector := vector, deleted := false);
      RewriteKeeps(nodes, m, id, node);
      MetaAfterRewrite(nodes, meta, id, node);
      DeletedAfterWrite(nodes, nodes[id := node], id, false);
      LiveAfterRewrite(nodes, id, node);
      if nodes[id].deleted && meta.deletedCount > 0 {
        meta := meta.(deletedCount := meta.deletedCount - 1);
      }
      meta := meta.(mutations := meta.mutations + 1);
      nodes := nodes[id := node];
    }

    /** Mark the record deleted; its links stay in place. */
    method Tombstone(id: Id)
      requires Valid() && id in nodes && !nodes[id].deleted
      modifies this
      ensures Valid() && meta.mutations == old(meta.mutations) + 1
      ensures LiveVectors(nodes) == old(LiveVectors(nodes)) - {id}
    {
      var node := nodes[id].(deleted := true);
      RewriteKeeps(nodes, m, id, node);
      MetaAfterRewrite(nodes, meta, id, node);
      DeletedAfterWrite(nodes, nodes[id := node], id, true);
      LiveAfterRewrite(nodes, id, node);
      meta := meta.(mutations := meta.mutations + 1, deletedCount := meta.deletedCount + 1);
      nodes := nodes[id := node];
    }

    /** Drop every record of an index whose nodes are all deleted. */
    method Reset()
      requires Valid() && meta.deletedCount == meta.count
      modifies this
      ensures Valid() && nodes == map[] && meta.mutations == 0
      ensures LiveVectors(nodes) == old(LiveVectors(nodes))
    {
      AllDeleted(nodes);
      nodes, meta := map[], Meta(0, 0, 0, 0, 0, 0);
    }

    /** One committed change to the vector of `id`: a new vector, or its removal.  The index
        stays well formed and its live vectors change exactly as asked. */
    method Mutate(id: Id, vector: Vector, present: bool)
      requires Valid()
      modifies this
      ensures Valid()
      ensures LiveVectors(nodes) == if present then old(LiveVectors(nodes))[id := vector] else old(LiveVectors(nodes)) - {id}
      ensures meta.mutations <= old(meta.mutations) + 1
    {
      if !present {
        if id in nodes && !nodes[id].deleted {
          Tombstone(id);
        } else {
          assert LiveVectors(nodes) - {id} == LiveVectors(nodes);
        }
      } else if id in nodes && !nodes[id].deleted && nodes[id].vector == vector {
        assert LiveVectors(nodes) == LiveVectors(nodes)[id := vector];
      } else if id in nodes {
        ghost var _ := Readd(id, vector);
      } else {
        if meta.count != 0 && meta.deletedCount == meta.count {
          Reset();
        }
        ghost var _ := Insert(id, vector);
        meta := meta.(mutations := meta.mutations + 1);
      }
    }

    /** Any sequence of committed changes keeps the index well formed and in step with the
        vectors of the graph. */
    method Apply(changes: seq<Change>)
      requires Valid()
      modifies this
      ensures Valid()
      ensures LiveVectors(nodes) == Replay(old(LiveVectors(nodes)), changes)
    {
      assert changes[..0] == [];
      for i := 0 to |changes|
        invariant Valid()
        invariant LiveVectors(nodes) == Replay(old(LiveVectors(nodes)), changes[..i])
      {
        assert changes[..i + 1][..i] == changes[..i];
        match changes[i]
        case Set(id, vector) => Mutate(id, vector, true);
        case Remove(id) => Mutate(id, [], false);
      }
      assert changes[..|changes|] == changes;
    }

    /** The k nearest live nodes the layer-0 search finds from where the descent arrives. */
    method Search(query: Vector, limit: nat, ef: nat) returns (found: seq<Candidate>, ghost start: Id)
      requires Valid()
      ensures |found| <= (if limit < 1 then 10 else limit) && Sorted(ByDistance(), found) && Distinct(Ids(found))
      ensures forall x :: x in found ==> x.id in LiveVectors(nodes) && x.distance == dist(query, LiveVectors(nodes)[x.id])
      ensures nodes != map[] ==> Arrives(nodes, dist, meta, query, 0, start)
      ensures nodes != map[] ==> Finds(nodes, dist, query, start, if limit < 1 then 10 else limit, ef, found)
    {
      start := 0;
      var k := if limit < 1 then 10 else limit;
      if nodes == map[] {
        return [], start;
      }
      var entry := Descend(query, 0);
      start := entry;
      var width := if ef < k then k else ef;
      Weaken(nodes, m, NOBODY, Pending(0, 0, 1));
      ClosedBelowPending(nodes, m, Pending(0, 0, 1), 0);
      var c := Ctx(nodes, dist, query, entry, 0, width, 0);
      var r;
      ghost var visited;
      r, visited := Layer(c);
      found := if |r.value| < k then r.value else r.value[..k];
      PrefixOfLayer(c, r.value, visited, found);
      LayerFinds(c, r.value, visited, k, ef, found);
    }
  }

  datatype Change = Set(id: Id, vector: Vector) | Remove(id: Id)

  ghost function Replay(live: map<Id, Vector>, changes: seq<Change>): map<Id, Vector> {
    if changes == [] then live
    else
      var before := Replay(live, changes[..|changes| - 1]);
      match changes[|changes| - 1]
      case Set(id, vector) => before[id := vector]
      case Remove(id) => before - {id}
  }

  lemma PrefixOfLayer(c: Ctx, all: seq<Candidate>, visited: set<Id>, found: seq<Candidate>)
    requires LayerResult(c, all, visited) && found <= all
    ensures Sorted(ByDistance(), found) && Distinct(Ids(found))
    ensures forall x :: x in found ==> x.id in c.g && !c.g[x.id].deleted && x == c.At(x.id)
  {
    assert multiset(found) <= multiset(all) by { assert all == found + all[|found|..]; }
    NamesOfFound(c, all, visited, found);
  }

  lemma LiveFits(c: Ctx)
    ensures |c.Live()| <= |c.g|
  {
    assert |c.g| == |c.g.Keys|;
    assert c.g.Keys == c.Live() + (c.g.Keys - c.Live());
  }

  lemma CutIsFarther(all: seq<Candidate>, found: seq<Candidate>, y: Candidate)
    requires Sorted(ByDistance(), all) && found <= all && y in all && y !in found
    ensures Beyond(found, y)
  {
    var j :| 0 <= j < |all| && all[j] == y;
    assert j >= |found|;
    forall i | 0 <= i < |found| ensures found[i].distance <= y.distance { assert ByDistance()(all[i], all[j]); }
  }

  function InsertedMeta(meta: Meta, id: Id, level: nat): Meta {
    var top := if meta.count == 0 || level > meta.maxLevel then meta.(entryId := id, maxLevel := level) else meta;
    top.(count := meta.count + 1, lastId := if meta.count == 0 || id > meta.lastId then id else meta.lastId)
  }

  lemma EmptyGraph(g: Graph, meta: Meta, m: nat, p: Pending)
    requires MetaOk(g, meta) && meta.count == 0
    ensures g == map[] && GraphOk(g, m, p)
  {
    assert |g| == |g.Keys|;
  }

  lemma NonEmptyGraph(g: Graph, meta: Meta)
    requires MetaOk(g, meta) && meta.count != 0
    ensures g != map[]
  {
  }

  lemma MetaAfterInsert(g: Graph, h: Graph, meta: Meta, id: Id, level: nat)
    requires MetaOk(g, meta) && id !in g && h.Keys == g.Keys + {id}
    requires h[id].level == level && !h[id].deleted
    requires forall x :: x in g ==> h[x].level == g[x].level && h[x].deleted == g[x].deleted
    ensures MetaOk(h, InsertedMeta(meta, id, level))
  {
    DeletedAfterWrite(g, h, id, false);
    if meta.count == 0 { EmptyGraph(g, meta, 0, NOBODY); } else { NonEmptyGraph(g, meta); }
  }

  lemma MetaAfterRewrite(g: Graph, meta: Meta, id: Id, node: Node)
    requires MetaOk(g, meta) && id in g && node.level == g[id].level
    ensures MetaOk(g[id := node], meta.(deletedCount := |Deleted(g[id := node])|))
  {
    var h := g[id := node];
    assert h.Keys == g.Keys;
    assert |h| == |h.Keys| && |g| == |g.Keys|;
  }

  lemma LiveAfterRewrite(g: Graph, id: Id, node: Node)
    ensures LiveVectors(g[id := node]) == if node.deleted then LiveVectors(g) - {id} else LiveVectors(g)[id := node.vector]
  {
  }

  lemma MetaKept(g: Graph, h: Graph, meta: Meta)
    requires MetaOk(g, meta) && SameRecords(g, h) && Deleted(h) == Deleted(g)
    ensures MetaOk(h, meta)
  {
    assert |h| == |h.Keys| && |g| == |g.Keys|;
  }

  lemma OwnLinks(g: Graph, m: nat, id: Id)
    requires GraphOk(g, m, NOBODY) && id in g
    ensures OwnLinksOk(g, m, id, g[id].level, g[id].neighbors, Pending(id, g[id].level, g[id].level + 1))
  {
    assert NodeOk(g, m, id, g[id], NOBODY);
    forall l | 0 <= l <= g[id].level ensures LinksOk(g, m, id, l, g[id].neighbors[l], Pending(id, g[id].level, g[id].level + 1)) {
      assert LinksOk(g, m, id, l, g[id].neighbors[l], NOBODY);
    }
  }

  lemma AllDeleted(g: Graph)
    requires |Deleted(g)| == |g|
    ensures LiveVectors(g) == map[]
  {
    assert |g| == |g.Keys|;
    assert g.Keys == Deleted(g) + (g.Keys - Deleted(g));
    assert |g.Keys| == |Deleted(g)| + |g.Keys - Deleted(g)|;
  }

  /** Writing one record changes the tombstones and the size only through that record. */
  lemma DeletedAfterWrite(g: Graph, h: Graph, id: Id, deleted: bool)
    requires h.Keys == g.Keys + {id} && h[id].deleted == deleted
    requires forall x :: x in g && x != id ==> h[x].deleted == g[x].deleted
    ensures Deleted(h) == (if deleted then Deleted(g) + {id} else Deleted(g) - {id})
    ensures |Deleted(h)| == |Deleted(g)| + (if deleted then 1 else 0) - (if id in g && g[id].deleted then 1 else 0)
    ensures |h| == |g| + (if id in g then 0 else 1)
  {
    DeletedChange(g, h, id, deleted);
    SizeWith(Deleted(g), id);
    KeysChange(g, h, id);
  }

  lemma DeletedChange(g: Graph, h: Graph, id: Id, deleted: bool)
    requires h.Keys == g.Keys + {id} && h[id].deleted == deleted
    requires forall x :: x in g && x != id ==> h[x].deleted == g[x].deleted
    ensures Deleted(h) == (if deleted then Deleted(g) + {id} else Deleted(g) - {id})
  {
    forall x ensures x in Deleted(h) <==> if x == id then deleted else x in Deleted(g) {
      if x in h { assert x == id || x in g; }
    }
  }

  lemma KeysChange(g: Graph, h: Graph, id: Id)
    requires h.Keys == g.Keys + {id}
    ensures |h| == |g| + (if id in g then 0 else 1)
  {
    assert |h| == |h.Keys| && |g| == |g.Keys|;
    SizeWith(g.Keys, id);
  }

  lemma SizeWith(s: set<Id>, x: Id)
    ensures |s + {x}| == |s| + (if x in s then 0 else 1) && |s - {x}| == |s| - (if x in s then 1 else 0)
  {
    if x in s {
      assert s + {x} == s;
    } else {
      assert s - {x} == s;
    }
  }

  /** Changing the vector or the tombstone of a record keeps every link good. */
  lemma RewriteKeeps(g: Graph, m: nat, id: Id, node: Node)
    requires GraphOk(g, m, NOBODY) && id in g && node.level == g[id].level && node.neighbors == g[id].neighbors
    ensures GraphOk(g[id := node], m, NOBODY)
  {
    var h := g[id := node];
    forall x | x in h ensures NodeOk(h, m, x, h[x], NOBODY) {
      assert NodeOk(g, m, x, g[x], NOBODY);
      forall l | 0 <= l <= h[x].level ensures LinksOk(h, m, x, l, h[x].neighbors[l], NOBODY) {
        assert LinksOk(g, m, x, l, g[x].neighbors[l], NOBODY);
      }
    }
  }

  lemma RecordAdded(before: Graph, linked: Graph, id: Id, node: Node)
    requires SameRecords(before, linked) && id !in before && !node.deleted
    ensures LiveVectors(linked[id := node]) == LiveVectors(before)[id := node.vector]
    ensures linked[id := node].Keys == before.Keys + {id}
    ensures forall x :: x in before ==> linked[id := node][x].level == before[x].level && linked[id := node][x].deleted == before[x].deleted
  {
  }

  lemma RecordReplaced(written: Graph, linked: Graph, id: Id, node: Node)
    requires SameRecords(written, linked) && id in written && !node.deleted && !written[id].deleted
    requires node.level == written[id].level && node.vector == written[id].vector
    ensures SameRecords(written, linked[id := node])
    ensures LiveVectors(linked[id := node]) == LiveVectors(written)
    ensures Deleted(linked[id := node]) == Deleted(written) && |linked[id := node]| == |written|
  {
    var h := linked[id := node];
    assert h.Keys == written.Keys;
    assert |h| == |h.Keys| && |written| == |written.Keys|;
  }
}
