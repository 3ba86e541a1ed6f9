/** The layered proximity graph of the page-backed vector index. */
module VectorGraph {
  import opened Orders

  type Id = nat
  type Vector = seq<real>
  type Metric = (Vector, Vector) -> real

  datatype Node = Node(level: nat, neighbors: seq<seq<Id>>, vector: Vector, deleted: bool)
  type Graph = map<Id, Node>

  datatype Result<T> = Ok(value: T) | Err(reason: Corruption)
  datatype Corruption = MissingNode(id: Id) | LacksLevel(id: Id) | LinkToLowerLevel(id: Id)

  predicate HasLevel(g: Graph, id: Id, level: nat) {
    id in g && level < |g[id].neighbors|
  }

  /** Every link at `level` leads to a record that itself has that level. */
  ghost predicate LevelClosed(g: Graph, level: nat) {
    forall id :: HasLevel(g, id, level) ==> LinksHave(g, level, g[id].neighbors[level])
  }

  ghost predicate LinksHave(g: Graph, level: nat, links: seq<Id>) {
    forall i :: 0 <= i < |links| ==> HasLevel(g, links[i], level) && g[links[i]].level >= level
  }

  ghost predicate Path(g: Graph, level: nat, p: seq<Id>) {
    && p != []
    && forall i :: 0 <= i < |p| - 1 ==> HasLevel(g, p[i], level) && p[i + 1] in g[p[i]].neighbors[level]
  }

  /** Following links at one level leads from `from` to `to`. */
  ghost predicate Reachable(g: Graph, level: nat, from: Id, to: Id) {
    exists p :: Path(g, level, p) && p[0] == from && p[|p| - 1] == to
  }

  lemma ReachesSelf(g: Graph, level: nat, id: Id)
    ensures Reachable(g, level, id, id)
  {
    assert Path(g, level, [id]);
  }

  lemma ReachStep(g: Graph, level: nat, from: Id, via: Id, to: Id)
    requires Reachable(g, level, from, via) && HasLevel(g, via, level) && to in g[via].neighbors[level]
    ensures Reachable(g, level, from, to)
  {
    var p :| Path(g, level, p) && p[0] == from && p[|p| - 1] == via;
    assert Path(g, level, p + [to]);
  }

  /** A set that contains the start and is closed under the links contains all that is reachable. */
  lemma {:induction false} PathStaysInside(g: Graph, level: nat, s: set<Id>, p: seq<Id>)
    requires Path(g, level, p) && p[0] in s
    requires forall id, n :: id in s && HasLevel(g, id, level) && n in g[id].neighbors[level] ==> n in s
    ensures p[|p| - 1] in s
    decreases |p|
  {
    if |p| > 1 {
      PathStaysInside(g, level, s, p[..|p| - 1]);
    }
  }

  datatype Candidate = Candidate(id: Id, distance: real)

  predicate Nearer(x: Candidate, y: Candidate) {
    x.distance < y.distance || (x.distance == y.distance && x.id <= y.id)
  }

  function ByDistance(): (Candidate, Candidate) -> bool {
    (x, y) => Nearer(x, y)
  }

  lemma ByDistanceIsOrder()
    ensures TotalOrder(ByDistance())
  {
  }
}
