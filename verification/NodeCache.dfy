/** The cost-bounded LRU cache in front of the page-backed vector index: a doubly linked list,
    most recent first, and a map to the links of that list. */
module NodeCache {
  import opened Orders
  import opened Chains
  import opened VectorGraph

  /** A cached record with the bytes it accounts for. */
  datatype Entry = Entry(id: Id, node: Node, cost: nat)

  const SCRATCH_BYTES: nat := 524288

  function Total(s: seq<Entry>): nat {
    Sum(s, |s|)
  }

  /** Cost of the first n entries. */
  function Sum(s: seq<Entry>, n: nat): nat
    requires n <= |s|
  {
    if n == 0 then 0 else Sum(s, n - 1) + s[n - 1].cost
  }

  lemma {:induction false} SumAgrees(s: seq<Entry>, t: seq<Entry>, n: nat)
    requires n <= |s| && n <= |t| && s[..n] == t[..n]
    ensures Sum(s, n) == Sum(t, n)
  {
    if n > 0 {
      assert s[..n - 1] == s[..n][..n - 1] && t[..n - 1] == t[..n][..n - 1];
      assert s[n - 1] == s[..n][n - 1] == t[..n][n - 1];
      SumAgrees(s, t, n - 1);
    }
  }

  ghost predicate DistinctNames(s: seq<Entry>) {
    forall i, j :: 0 <= i < j < |s| ==> s[i].id != s[j].id
  }

  ghost predicate Absent(s: seq<Entry>, id: Id) {
    forall i :: 0 <= i < |s| ==> s[i].id != id
  }

  /** The list without the entry for `id`. */
  function Drop(s: seq<Entry>, id: Id): seq<Entry> {
    if s == [] then [] else if s[0].id == id then s[1..] else [s[0]] + Drop(s[1..], id)
  }

  /** What is left after evicting from the back until the costs fit into `room`. */
  function EvictTo(s: seq<Entry>, room: nat): seq<Entry> {
    if Total(s) <= room then s else EvictTo(s[..|s| - 1], room)
  }

  /** The cache after admitting e: in front, with the least recent entries evicted; an entry
      that alone is too costly is not kept. */
  ghost function Admitted(s: seq<Entry>, e: Entry, limit: nat): seq<Entry> {
    if e.cost > limit then Drop(s, e.id) else [e] + EvictTo(Drop(s, e.id), limit - e.cost)
  }

  /** Every cached record is what the index would return. */
  ghost predicate Agrees(s: seq<Entry>, disk: Graph, readable: Node -> bool) {
    forall i :: 0 <= i < |s| ==> s[i].id in disk && s[i].node == disk[s[i].id] && readable(s[i].node)
  }

  ghost predicate AgreesExcept(s: seq<Entry>, disk: Graph, readable: Node -> bool, id: Id) {
    forall i :: 0 <= i < |s| && s[i].id != id ==> s[i].id in disk && s[i].node == disk[s[i].id] && readable(s[i].node)
  }

  ghost predicate CacheOk(s: seq<Entry>, disk: Graph, readable: Node -> bool, limit: nat) {
    DistinctNames(s) && Agrees(s, disk, readable) && Total(s) <= limit
  }

  lemma {:induction false} SumOfJoin(a: seq<Entry>, b: seq<Entry>, n: nat)
    requires n <= |b|
    ensures Sum(a + b, |a| + n) == Total(a) + Sum(b, n)
  {
    if n == 0 {
      SumAgrees(a + b, a, |a|);
    } else {
      SumOfJoin(a, b, n - 1);
    }
  }

  lemma TotalOfJoin(a: seq<Entry>, b: seq<Entry>)
    ensures Total(a + b) == Total(a) + Total(b)
  {
    SumOfJoin(a, b, |b|);
  }

  lemma TotalOfOne(e: Entry, s: seq<Entry>)
    ensures Total([e] + s) == e.cost + Total(s)
  {
    TotalOfJoin([e], s);
    assert Sum([e], 1) == Sum([e], 0) + e.cost;
  }

  lemma TotalOfCut(s: seq<Entry>, k: nat)
    requires k < |s|
    ensures Total(s) == Total(Cut(s, k)) + s[k].cost
  {
    TotalOfJoin(s[..k], s[k + 1..]);
    TotalOfJoin(s[..k], [s[k]] + s[k + 1..]);
    TotalOfOne(s[k], s[k + 1..]);
    assert s == s[..k] + ([s[k]] + s[k + 1..]);
  }

  lemma {:induction false} DropIsCut(s: seq<Entry>, k: nat)
    requires k < |s| && DistinctNames(s)
    ensures Drop(s, s[k].id) == Cut(s, k)
  {
    if k > 0 {
      DropIsCut(s[1..], k - 1);
      assert [s[0]] + Cut(s[1..], k - 1) == Cut(s, k);
    }
  }

  lemma {:induction false} DropAbsent(s: seq<Entry>, id: Id)
    requires Absent(s, id)
    ensures Drop(s, id) == s
  {
    if s != [] {
      DropAbsent(s[1..], id);
    }
  }

  lemma CutKeeps(s: seq<Entry>, k: nat, disk: Graph, readable: Node -> bool)
    requires k < |s| && DistinctNames(s) && AgreesExcept(s, disk, readable, s[k].id)
    ensures DistinctNames(Cut(s, k)) && Agrees(Cut(s, k), disk, readable) && Absent(Cut(s, k), s[k].id)
  {
    var t := Cut(s, k);
    forall i | 0 <= i < |t| ensures t[i] == s[if i < k then i else i + 1] {
    }
  }

  /** Dropping one name removes exactly that entry. */
  lemma DropKeeps(s: seq<Entry>, id: Id, disk: Graph, readable: Node -> bool, limit: nat)
    requires DistinctNames(s) && Total(s) <= limit && AgreesExcept(s, disk, readable, id)
    ensures CacheOk(Drop(s, id), disk, readable, limit) && Absent(Drop(s, id), id)
  {
    if k :| 0 <= k < |s| && s[k].id == id {
      DropIsCut(s, k);
      TotalOfCut(s, k);
      CutKeeps(s, k, disk, readable);
    } else {
      DropAbsent(s, id);
    }
  }

  lemma {:induction false} EvictKeeps(s: seq<Entry>, disk: Graph, readable: Node -> bool, limit: nat, room: nat)
    requires CacheOk(s, disk, readable, limit)
    ensures CacheOk(EvictTo(s, room), disk, readable, limit) && Total(EvictTo(s, room)) <= room
    ensures EvictTo(s, room) <= s
    decreases |s|
  {
    if Total(s) > room {
      TotalOfCut(s, |s| - 1);
      assert Cut(s, |s| - 1) == s[..|s| - 1];
      EvictKeeps(s[..|s| - 1], disk, readable, limit, room);
    }
  }

  lemma {:induction false} SumGrows(s: seq<Entry>, a: nat, b: nat)
    requires a <= b <= |s|
    ensures Sum(s, a) <= Sum(s, b)
    decreases b
  {
    if a < b { SumGrows(s, a, b - 1); }
  }

  /** Eviction stops as soon as the rest fits: what is left is the longest prefix that does. */
  lemma {:induction false} EvictsNoMore(s: seq<Entry>, room: nat, n: nat)
    requires |EvictTo(s, room)| < n <= |s|
    ensures Total(s[..n]) > room
    decreases |s|
  {
    SumAgrees(s[..n], s, n) by { assert s[..n][..n] == s[..n]; }
    if n < |s| {
      var shorter := s[..|s| - 1];
      assert shorter[..n] == s[..n];
      EvictsNoMore(shorter, room, n);
    }
  }

  /** Admission keeps the cache consistent, within its limit, and serves the new record first
      whenever that record fits at all. */
  lemma AdmittedOk(s: seq<Entry>, e: Entry, disk: Graph, readable: Node -> bool, limit: nat)
    requires DistinctNames(s) && Total(s) <= limit && e.id in disk && disk[e.id] == e.node && readable(e.node)
    requires AgreesExcept(s, disk, readable, e.id)
    ensures CacheOk(Admitted(s, e, limit), disk, readable, limit)
    ensures e.cost <= limit ==> Admitted(s, e, limit)[0] == e
  {
    var rest := Drop(s, e.id);
    DropKeeps(s, e.id, disk, readable, limit);
    if e.cost <= limit {
      EvictKeeps(rest, disk, readable, limit, limit - e.cost);
      FrontKeeps(EvictTo(rest, limit - e.cost), rest, e, disk, readable, limit);
    }
  }

  lemma FrontKeeps(kept: seq<Entry>, rest: seq<Entry>, e: Entry, disk: Graph, readable: Node -> bool, limit: nat)
    requires kept <= rest && Absent(rest, e.id) && CacheOk(kept, disk, readable, limit) && Total(kept) + e.cost <= limit
    requires e.id in disk && disk[e.id] == e.node && readable(e.node)
    ensures CacheOk([e] + kept, disk, readable, limit)
  {
    TotalOfOne(e, kept);
    assert Absent(kept, e.id);
  }

  /** The links carry the entries in this order; the map leads from every name to its link, and
      only the links of `spare` names are off the list. */
  ghost predicate Paired<X>(links: seq<X>, s: seq<Entry>, nodes: map<Id, X>, spare: set<Id>) {
    && |links| == |s| && DistinctNames(s)
    && (forall i :: 0 <= i < |s| ==> s[i].id !in spare && s[i].id in nodes && nodes[s[i].id] == links[i])
    && (forall id :: id in nodes && id !in spare ==> !Absent(s, id))
    && (forall id :: id in spare ==> id in nodes && nodes[id] !in links)
  }

  /** Where the list holds a name that the map knows. */
  lemma Place<X>(links: seq<X>, s: seq<Entry>, nodes: map<Id, X>, spare: set<Id>, id: Id) returns (k: nat)
    requires Paired(links, s, nodes, spare) && id in nodes && id !in spare
    ensures k < |s| && s[k].id == id && links[k] == nodes[id]
  {
    assert !Absent(s, id);
    k :| 0 <= k < |s| && s[k].id == id;
  }

  lemma DropUnknown<X>(links: seq<X>, s: seq<Entry>, nodes: map<Id, X>, id: Id)
    requires Paired(links, s, nodes, {}) && id !in nodes
    ensures Drop(s, id) == s
  {
    assert Absent(s, id);
    DropAbsent(s, id);
  }

  lemma CutMembers(s: seq<Entry>, k: nat, id: Id)
    requires k < |s| && !Absent(s, id) && id != s[k].id
    ensures !Absent(Cut(s, k), id)
  {
    var i :| 0 <= i < |s| && s[i].id == id;
    assert Cut(s, k)[if i < k then i else i - 1].id == id;
  }

  lemma CutApart<X>(links: seq<X>, s: seq<Entry>, k: nat)
    requires |links| == |s| && k < |s| && Distinct(links) && DistinctNames(s)
    ensures DistinctNames(Cut(s, k)) && links[k] !in Cut(links, k) && Absent(Cut(s, k), s[k].id)
  {
    CutAt(links, k);
    CutAt(s, k);
  }

  lemma AlreadyFirst<X>(s: seq<X>, k: nat)
    requires k < |s| && k == 0
    ensures [s[k]] + Cut(s, k) == s
  {
  }

  /** Taking a link off the list leaves its name to the map alone. */
  lemma PairedCut<X>(links: seq<X>, s: seq<Entry>, nodes: map<Id, X>, spare: set<Id>, k: nat)
    requires Paired(links, s, nodes, spare) && Distinct(links) && k < |s|
    ensures Paired(Cut(links, k), Cut(s, k), nodes, spare + {s[k].id})
  {
    CutApart(links, s, k);
    CutAt(links, k);
    CutAt(s, k);
    forall id | id in nodes && id !in spare + {s[k].id} ensures !Absent(Cut(s, k), id) {
      CutMembers(s, k, id);
    }
  }

  lemma PairedLess<X>(links: seq<X>, s: seq<Entry>, nodes: map<Id, X>, spare: set<Id>, id: Id)
    requires Paired(links, s, nodes, spare + {id}) && id !in spare
    ensures Paired(links, s, nodes - {id}, spare)
  {
  }

  lemma PairedMore<X>(links: seq<X>, s: seq<Entry>, nodes: map<Id, X>, id: Id, link: X)
    requires Paired(links, s, nodes, {}) && id !in nodes && link !in links
    ensures Paired(links, s, nodes[id := link], {id})
  {
  }

  lemma PairedFront<X>(links: seq<X>, s: seq<Entry>, nodes: map<Id, X>, e: Entry)
    requires Paired(links, s, nodes, {e.id})
    ensures Paired([nodes[e.id]] + links, [e] + s, nodes, {})
  {
    var all, t := [nodes[e.id]] + links, [e] + s;
    forall i | 0 <= i < |t| ensures t[i].id in nodes && nodes[t[i].id] == all[i] {
      if i > 0 { assert t[i] == s[i - 1] && all[i] == links[i - 1]; }
    }
    forall id | id in nodes ensures !Absent(t, id) {
      if id == e.id {
        assert t[0].id == id;
      } else {
        var k := Place(links, s, nodes, {e.id}, id);
        assert t[k + 1].id == id;
      }
    }
  }

  /** Moving a link to the front changes the order and nothing else. */
  lemma PairedMove<X>(links: seq<X>, s: seq<Entry>, nodes: map<Id, X>, k: nat)
    requires Paired(links, s, nodes, {}) && Distinct(links) && k < |s|
    ensures Paired([links[k]] + Cut(links, k), [s[k]] + Cut(s, k), nodes, {})
    ensures Total([s[k]] + Cut(s, k)) == Total(s)
  {
    PairedCut(links, s, nodes, {}, k);
    assert {} + {s[k].id} == {s[k].id};
    PairedFront(Cut(links, k), Cut(s, k), nodes, s[k]);
    TotalOfCut(s, k);
    TotalOfOne(s[k], Cut(s, k));
  }

  /** Bytes the bounded reader may need for a record. */
  function ReadBytes(node: Node): nat {
    64 + 5 * |node.vector| + 24 * |node.neighbors| + LinkBytes(node.neighbors)
  }

  function LinkBytes(neighbors: seq<seq<Id>>): nat {
    if neighbors == [] then 0 else 10 + 10 * |neighbors[0]| + LinkBytes(neighbors[1..])
  }

  /** Records certain to pass the bounded reader. */
  predicate Fits(node: Node, maxRecord: nat) {
    var limit := if maxRecord == 0 then 1048576 else maxRecord;
    && node.vector != [] && ReadBytes(node) <= limit / 3
    && forall l, i :: 0 <= l < |node.neighbors| && 0 <= i < |node.neighbors[l]| ==> node.neighbors[l][i] != 0
  }

  ghost predicate ReadsWhatFits(readable: Node -> bool, maxRecord: nat) {
    forall n :: Fits(n, maxRecord) ==> readable(n)
  }

  /** Bytes a record without spare slice capacity accounts for. */
  function Cost(node: Node): nat {
    256 + 8 * |node.vector| + 48 * |node.neighbors| + ListCost(node.neighbors)
  }

  function ListCost(neighbors: seq<seq<Id>>): nat {
    if neighbors == [] then 0 else 16 * |neighbors[0]| + ListCost(neighbors[1..])
  }

  datatype Read = Nothing | Unreadable | Found(node: Node)

  function DiskRead(disk: Graph, readable: Node -> bool, id: Id): Read {
    if id !in disk then Nothing else if readable(disk[id]) then Found(disk[id]) else Unreadable
  }

  /** A write reaches the index, or fails leaving some record, or none, under the id. */
  datatype Write = Done | Failed(left: Read)

  function Written(disk: Graph, id: Id, node: Node, outcome: Write): Graph {
    match outcome
    case Done => disk[id := node]
    case Failed(Found(other)) => disk[id := other]
    case Failed(_) => disk - {id}
  }

  lemma EvictStep(s: seq<Entry>, room: nat)
    requires Total(s) > room
    ensures s != [] && EvictTo(s, room) == EvictTo(s[..|s| - 1], room)
  {
  }

  class Access {
    const limit: nat
    const scratch: bool
    const maxRecord: nat
    const readable: Node -> bool
    const list: Chain<Entry>
    var disk: Graph
    var nodes: map<Id, Link<Entry>>
    var used: nat
    ghost var entries: seq<Entry>
    ghost var repr: set<Link<Entry>>

    function NodeLimit(): nat {
      if scratch then (if limit < SCRATCH_BYTES then 0 else (limit - SCRATCH_BYTES) / 2) else limit / 2
    }

    /** The links are this cache's own, in order, and carry the entries. */
    ghost predicate Mirrors()
      reads this, list, repr
    {
      && |list.links| == |entries|
      && (forall i :: 0 <= i < |entries| ==> list.links[i] in repr && list.links[i].item == entries[i])
      && list.Valid()
    }

    /** List, map and counter tell the same story: the map's values are the list's links, each
        under its own id, and the counter is the sum of the costs on the list. */
    ghost predicate Linked(spare: set<Id>)
      reads this, list, repr
    {
      var coupled := Coupled(spare);
      coupled
    }

    ghost predicate Coupled(spare: set<Id>)
      reads this, list, repr
    {
      && Mirrors() && Paired(list.links, entries, nodes, spare)
      && (forall id :: id in spare ==> nodes[id] in repr)
      && used == Total(entries)
    }

    ghost predicate Valid()
      reads this, list, repr
    {
      && Linked({}) && CacheOk(entries, disk, readable, NodeLimit())
      && ReadsWhatFits(readable, maxRecord)
    }

    /** What Valid says of the pointers: the map's values are exactly the links on the list, each
        under its own id. */
    lemma MapIsList()
      requires Valid()
      ensures forall id :: id in nodes ==> nodes[id] in list.links && nodes[id].item.id == id
      ensures forall l :: l in list.links ==> l.item.id in nodes && nodes[l.item.id] == l
    {
      forall id | id in nodes ensures nodes[id] in list.links && nodes[id].item.id == id {
        var k := Place(list.links, entries, nodes, {}, id);
      }
    }

    constructor (disk: Graph, readable: Node -> bool, limit: nat, scratch: bool, maxRecord: nat)
      requires ReadsWhatFits(readable, maxRecord)
      ensures Valid() && this.disk == disk && this.readable == readable && entries == [] && fresh(list) && repr == {}
    {
      this.disk, this.readable, this.limit, this.scratch, this.maxRecord := disk, readable, limit, scratch, maxRecord;
      list := new Chain();
      nodes, used, entries, repr := map[], 0, [], {};
    }

    /** Take a link off the list. */
    method Unhook(link: Link<Entry>, ghost k: nat)
      requires Mirrors() && k < |entries| && list.links[k] == link
      modifies this`entries, list, repr`prev, repr`next
      ensures Mirrors() && list.links == Cut(old(list.links), k) && entries == Cut(old(entries), k)
    {
      list.Unlink(link, k);
      entries := Cut(entries, k);
    }

    /** Put a link in front of the list. */
    method Hook(link: Link<Entry>)
      requires Mirrors() && link in repr && link !in list.links
      modifies this`entries, list, repr`prev, repr`next
      ensures Mirrors() && list.links == [link] + old(list.links) && entries == [link.item] + old(entries)
    {
      list.PushFront(link);
      entries := [link.item] + entries;
    }

    /** Fill a link that is off the list. */
    method Fill(link: Link<Entry>, e: Entry)
      requires Mirrors() && link in repr && link !in list.links
      modifies link`item
      ensures Mirrors() && link.item == e
    {
      link.item := e;
    }

    /** Take an entry off the list and out of the accounting. */
    method Detach(link: Link<Entry>, ghost k: nat, ghost spare: set<Id>)
      requires Linked(spare) && k < |entries| && list.links[k] == link
      modifies this`used, this`entries, list, repr`prev, repr`next
      ensures Linked(spare + {link.item.id}) && entries == Cut(old(entries), k)
      ensures used + link.item.cost == old(used)
    {
      PairedCut(list.links, entries, nodes, spare, k);
      TotalOfCut(entries, k);
      Unhook(link, k);
      used := used - link.item.cost;
    }

    method Remove(link: Link<Entry>, ghost k: nat, ghost spare: set<Id>)
      requires Linked(spare) && k < |entries| && list.links[k] == link
      modifies this`used, this`entries, this`nodes, list, repr`prev, repr`next
      ensures Linked(spare) && entries == Cut(old(entries), k) && nodes == old(nodes) - {link.item.id} && used <= old(used)
    {
      Detach(link, k, spare);
      PairedLess(list.links, entries, nodes, spare, link.item.id);
      nodes := nodes - {link.item.id};
    }

    /** Put a link that only the map knows in front of the list, with new contents. */
    method Attach(link: Link<Entry>, e: Entry)
      requires Linked({e.id}) && nodes[e.id] == link
      modifies this`used, this`entries, list, repr
      ensures Linked({}) && entries == [e] + old(entries)
    {
      PairedFront(list.links, entries, nodes, e);
      TotalOfOne(e, entries);
      used := used + e.cost;
      Fill(link, e);
      Hook(link);
      assert Coupled({});
    }

    method Rehook(link: Link<Entry>, ghost k: nat)
      requires Mirrors() && k < |entries| && list.links[k] == link
      modifies this`entries, list, repr`prev, repr`next
      ensures Mirrors() && list.links == [link] + Cut(old(list.links), k) && entries == [link.item] + Cut(old(entries), k)
    {
      OffList(list.links, k);
      Unhook(link, k);
      Hook(link);
    }

    /** Move a link to the front, unless it is there. */
    method Advance(link: Link<Entry>, ghost k: nat)
      requires Mirrors() && k < |entries| && list.links[k] == link
      modifies this`entries, list, repr`prev, repr`next
      ensures Mirrors() && list.links == [link] + Cut(old(list.links), k) && entries == [link.item] + Cut(old(entries), k)
    {
      if link != list.head {
        Rehook(link, k);
      } else {
        AlreadyFirst(list.links, k);
        AlreadyFirst(entries, k);
      }
    }

    /** Make an entry the most recent one. */
    method MoveToFront(link: Link<Entry>, ghost k: nat)
      requires Linked({}) && k < |entries| && list.links[k] == link
      modifies this`entries, list, repr`prev, repr`next
      ensures Linked({}) && entries == [old(entries)[k]] + Cut(old(entries), k)
    {
      PairedMove(list.links, entries, nodes, k);
      Advance(link, k);
    }

    /** Evict the least recent entry. */
    method EvictLast(ghost spare: set<Id>)
      requires Linked(spare) && entries != []
      modifies this`used, this`entries, this`nodes, list, repr`prev, repr`next
      ensures Linked(spare) && entries == old(entries)[..|old(entries)| - 1] && used <= old(used)
      ensures nodes.Keys <= old(nodes).Keys
    {
      Remove(list.tail, |entries| - 1, spare);
    }

    /** Evict from the back until `cost` fits.  The loop ends because an empty list has no
        cost and `cost` alone fits. */
    method MakeRoom(cost: nat, ghost spare: set<Id>)
      requires Linked(spare) && cost <= NodeLimit() && used <= NodeLimit()
      modifies this`used, this`entries, this`nodes, list, repr`prev, repr`next
      ensures Linked(spare) && entries == EvictTo(old(entries), NodeLimit() - cost)
      ensures nodes.Keys <= old(nodes).Keys
    {
      ghost var room := NodeLimit() - cost;
      ghost var goal := EvictTo(entries, room);
      while cost > NodeLimit() - used
        invariant Linked(spare) && used <= NodeLimit()
        invariant EvictTo(entries, room) == goal && nodes.Keys <= old(nodes).Keys
        decreases |entries|
      {
        EvictStep(entries, room);
        EvictLast(spare);
      }
    }

    /** Take out what is cached under an id, if anything. */
    method Forget(id: Id)
      requires Linked({})
      modifies this`used, this`entries, this`nodes, list, repr`prev, repr`next
      ensures Linked({}) && entries == Drop(old(entries), id)
    {
      if id in nodes {
        ghost var k := Place(list.links, entries, nodes, {}, id);
        DropIsCut(entries, k);
        Remove(nodes[id], k, {});
      } else {
        assert Absent(entries, id);
        DropAbsent(entries, id);
      }
    }

    /** Take the link cached under an id, if any, off the list but not out of the map. */
    method Suspend(id: Id)
      requires Linked({}) && id in nodes
      modifies this`used, this`entries, list, repr`prev, repr`next
      ensures Linked({id}) && entries == Drop(old(entries), id) && used <= old(used)
    {
      ghost var k := Place(list.links, entries, nodes, {}, id);
      DropIsCut(entries, k);
      Detach(nodes[id], k, {});
      assert {} + {id} == {id};
    }

    /** A new link for an id that is not cached, known to the map alone. */
    method Enter(e: Entry)
      requires Linked({}) && e.id !in nodes
      modifies this`nodes, this`repr
      ensures Linked({e.id}) && entries == old(entries) && repr == old(repr) + {nodes[e.id]} && fresh(nodes[e.id])
    {
      var link := new Link(e);
      PairedMore(list.links, entries, nodes, e.id, link);
      nodes := nodes[e.id := link];
      repr := repr + {link};
    }

    /** Make room for an entry and a place for it in the map. */
    method Prepare(e: Entry, ghost left: seq<Entry>)
      requires Linked({}) && used <= NodeLimit() && e.cost <= NodeLimit() && left == EvictTo(Drop(entries, e.id), NodeLimit() - e.cost)
      modifies this`used, this`entries, this`nodes, this`repr, list, repr`prev, repr`next
      ensures Linked({e.id}) && entries == left && fresh(repr - old(repr))
    {
      if e.id in nodes {
        PrepareKnown(e, left);
      } else {
        DropUnknown(list.links, entries, nodes, e.id);
        PrepareNew(e, left);
      }
    }

    method PrepareKnown(e: Entry, ghost left: seq<Entry>)
      requires Linked({}) && used <= NodeLimit() && e.cost <= NodeLimit() && e.id in nodes && left == EvictTo(Drop(entries, e.id), NodeLimit() - e.cost)
      modifies this`used, this`entries, this`nodes, list, repr`prev, repr`next
      ensures Linked({e.id}) && entries == left
    {
      Suspend(e.id);
      MakeRoom(e.cost, {e.id});
    }

    method PrepareNew(e: Entry, ghost left: seq<Entry>)
      requires Linked({}) && used <= NodeLimit() && e.cost <= NodeLimit() && e.id !in nodes && left == EvictTo(entries, NodeLimit() - e.cost)
      modifies this`used, this`entries, this`nodes, this`repr, list, repr`prev, repr`next
      ensures Linked({e.id}) && entries == left && fresh(repr - old(repr))
    {
      MakeRoom(e.cost, {});
      Enter(e);
    }

    /** Admit an entry that fits. */
    method Accept(e: Entry)
      requires Linked({}) && used <= NodeLimit() && e.cost <= NodeLimit()
      modifies this`used, this`entries, this`nodes, this`repr, list, repr
      ensures Linked({}) && entries == [e] + EvictTo(Drop(old(entries), e.id), NodeLimit() - e.cost) && fresh(repr - old(repr))
    {
      Prepare(e, EvictTo(Drop(entries, e.id), NodeLimit() - e.cost));
      Attach(nodes[e.id], e);
    }

    /** Publish a record under `id`, evicting what no longer fits. */
    method Admit(id: Id, node: Node, cost: nat)
      requires Linked({}) && used <= NodeLimit()
      modifies this`used, this`entries, this`nodes, this`repr, list, repr
      ensures Linked({}) && entries == Admitted(old(entries), Entry(id, node, cost), NodeLimit()) && fresh(repr - old(repr))
    {
      if cost > NodeLimit() {
        Forget(id);
      } else {
        Accept(Entry(id, node, cost));
      }
    }

    /** Admit the record that the index holds. */
    method Publish(id: Id, node: Node, cost: nat)
      requires Linked({}) && Total(entries) <= NodeLimit() && AgreesExcept(entries, disk, readable, id)
      requires DiskRead(disk, readable, id) == Found(node)
      modifies this`used, this`entries, this`nodes, this`repr, list, repr
      ensures Linked({}) && CacheOk(entries, disk, readable, NodeLimit()) && fresh(repr - old(repr))
      ensures entries == Admitted(old(entries), Entry(id, node, cost), NodeLimit())
    {
      AdmittedOk(entries, Entry(id, node, cost), disk, readable, NodeLimit());
      Admit(id, node, cost);
    }

    /** Forget a record whose copy may be out of date. */
    method Discard(id: Id)
      requires Linked({}) && Total(entries) <= NodeLimit() && AgreesExcept(entries, disk, readable, id)
      modifies this`used, this`entries, this`nodes, list, repr`prev, repr`next
      ensures Linked({}) && CacheOk(entries, disk, readable, NodeLimit()) && entries == Drop(old(entries), id)
    {
      DropKeeps(entries, id, disk, readable, NodeLimit());
      Forget(id);
    }

    /** A hit becomes most recent. */
    method Hit(id: Id) returns (node: Node)
      requires Linked({}) && CacheOk(entries, disk, readable, NodeLimit()) && id in nodes
      modifies this`entries, list, repr`prev, repr`next
      ensures Linked({}) && CacheOk(entries, disk, readable, NodeLimit()) && DiskRead(disk, readable, id) == Found(node)
      ensures exists cost :: entries == Admitted(old(entries), Entry(id, node, cost), NodeLimit())
    {
      ghost var k := Place(list.links, entries, nodes, {}, id);
      HitIsAdmission(entries, k, NodeLimit());
      AdmittedOk(entries, entries[k], disk, readable, NodeLimit());
      node := nodes[id].item.node;
      assert entries[k] == Entry(id, node, entries[k].cost);
      MoveToFront(nodes[id], k);
    }

    /** A read through the cache returns what the index returns; a hit becomes most recent. */
    method Get(id: Id, spare: nat) returns (r: Read)
      requires Valid()
      modifies this`used, this`entries, this`nodes, this`repr, list, repr
      ensures Valid() && r == DiskRead(disk, readable, id) && fresh(repr - old(repr))
      ensures r.Found? && limit > 0 ==> exists cost :: entries == Admitted(old(entries), Entry(id, r.node, cost), NodeLimit())
    {
      if id in nodes {
        var node := Hit(id);
        return Found(node);
      }
      r := DiskRead(disk, readable, id);
      if r.Found? && limit > 0 {
        Publish(id, r.node, Cost(r.node) + spare);
      }
    }

    method WriteThrough(id: Id, node: Node, outcome: Write)
      requires Linked({}) && Agrees(entries, disk, readable)
      modifies this`disk
      ensures Linked({}) && disk == Written(old(disk), id, node, outcome) && AgreesExcept(entries, disk, readable, id)
    {
      WrittenElsewhere(entries, disk, readable, id, node, outcome);
      disk := Written(disk, id, node, outcome);
    }

    /** A write goes to the index first; the cache keeps a copy only of a record that a later
        read of the index is certain to return. */
    method Put(id: Id, node: Node, outcome: Write)
      requires Valid()
      modifies this, list, repr
      ensures Valid() && disk == Written(old(disk), id, node, outcome) && fresh(repr - old(repr))
      ensures entries == if outcome.Done? && limit > 0 && Fits(node, maxRecord)
                         then Admitted(old(entries), Entry(id, node, Cost(node)), NodeLimit())
                         else Drop(old(entries), id)
    {
      WriteThrough(id, node, outcome);
      if outcome.Failed? || limit == 0 || !Fits(node, maxRecord) {
        Discard(id);
      } else {
        FitsIsRead(disk, readable, maxRecord, id);
        Publish(id, node, Cost(node));
      }
    }

    /** Forget everything before the index drops all its records. */
    method Reset()
      requires Valid()
      modifies this, list
      ensures Valid() && entries == [] && disk == map[] && repr == {}
    {
      list.Clear();
      nodes, used, disk := map[], 0, map[];
      entries, repr := [], {};
    }

    /** One operation reads what the bare index gives. */
    method Step(op: Op) returns (got: seq<Read>)
      requires Valid()
      modifies this, list, repr
      ensures Valid() && fresh(repr - old(repr)) && got == Seen(old(disk), readable, op) && disk == Then(old(disk), op)
    {
      got := [];
      match op
      case Fetch(id, spare) =>
        var r := Get(id, spare);
        got := [r];
      case Store(id, node, outcome) =>
        Put(id, node, outcome);
      case Clear =>
        Reset();
    }

    /** The cache is invisible: over any sequence of operations the reads are those of the
        bare index. */
    method Run(ops: seq<Op>) returns (got: seq<Read>)
      requires Valid()
      modifies this, list, repr
      ensures Valid() && fresh(repr - old(repr))
      ensures got == Observed(old(disk), readable, ops) && disk == After(old(disk), ops)
      decreases |ops|
    {
      if ops == [] {
        return [];
      }
      got := Step(ops[0]);
      var more := Run(ops[1..]);
      got := got + more;
    }
  }

  datatype Op = Fetch(id: Id, spare: nat) | Store(id: Id, node: Node, outcome: Write) | Clear

  function Then(disk: Graph, op: Op): Graph {
    match op
    case Fetch(_, _) => disk
    case Store(id, node, outcome) => Written(disk, id, node, outcome)
    case Clear => map[]
  }

  function Seen(disk: Graph, readable: Node -> bool, op: Op): seq<Read> {
    if op.Fetch? then [DiskRead(disk, readable, op.id)] else []
  }

  /** The index after a sequence of operations. */
  function After(disk: Graph, ops: seq<Op>): Graph
    decreases |ops|
  {
    if ops == [] then disk else After(Then(disk, ops[0]), ops[1..])
  }

  /** What the same operations read from the bare index. */
  function Observed(disk: Graph, readable: Node -> bool, ops: seq<Op>): seq<Read>
    decreases |ops|
  {
    if ops == [] then [] else Seen(disk, readable, ops[0]) + Observed(Then(disk, ops[0]), readable, ops[1..])
  }

  lemma FitsIsRead(disk: Graph, readable: Node -> bool, maxRecord: nat, id: Id)
    requires ReadsWhatFits(readable, maxRecord) && id in disk && Fits(disk[id], maxRecord)
    ensures DiskRead(disk, readable, id) == Found(disk[id])
  {
  }

  /** A write concerns no record but its own. */
  lemma WrittenElsewhere(s: seq<Entry>, disk: Graph, readable: Node -> bool, id: Id, node: Node, outcome: Write)
    requires Agrees(s, disk, readable)
    ensures AgreesExcept(s, Written(disk, id, node, outcome), readable, id)
  {
  }

  /** Moving a hit to the front is admitting it again: nothing needs to be evicted. */
  lemma HitIsAdmission(s: seq<Entry>, k: nat, limit: nat)
    requires DistinctNames(s) && Total(s) <= limit && k < |s|
    ensures Admitted(s, s[k], limit) == [s[k]] + Cut(s, k)
  {
    DropIsCut(s, k);
    TotalOfCut(s, k);
  }
}
