/** The write transaction as it runs: change sets updated in place, statements run in a fork and
    merged key by key. */
module TxStore {

  import opened Optional
  import opened Values
  import opened Graphs
  import opened TxDelta

  /** Merged so far: only the ids done. */
  function MergePart<R>(t: Table<R>, f: Table<R>, done: set<nat>): Table<R> {
    t.(upserts := t.upserts - (Gone(f) * done) + (Kept(f) * done), deletes := (t.deletes - (Kept(f) * done)) + ((Gone(f) * done) * t.base.Keys))
  }

  lemma MergeNone<R>(t: Table<R>, f: Table<R>)
    ensures MergePart(t, f, {}) == t
  {
  }

  lemma MergeOne<R>(t: Table<R>, f: Table<R>, done: set<nat>, id: nat)
    requires id in f.upserts + f.deletes && id !in done
    ensures var part := MergePart(t, f, done);
            MergePart(t, f, done + {id}) == if id in f.graph then MarkUpsert(part, id) else MarkDelete(part, id in t.base, id)
  {
    var part, more := MergePart(t, f, done), MergePart(t, f, done + {id});
    if id in f.graph {
      assert Kept(f) * (done + {id}) == Kept(f) * done + {id} && Gone(f) * (done + {id}) == Gone(f) * done;
      assert id !in Gone(f);
    } else {
      assert Gone(f) * (done + {id}) == Gone(f) * done + {id} && Kept(f) * (done + {id}) == Kept(f) * done;
      assert id !in Kept(f);
    }
  }

  lemma MergeAll<R>(t: Table<R>, f: Table<R>)
    ensures MergePart(t, f, f.upserts + f.deletes).(graph := f.graph) == Merge(t, f)
  {
    assert Kept(f) * (f.upserts + f.deletes) == Kept(f) && Gone(f) * (f.upserts + f.deletes) == Gone(f);
  }

  /** Merge the change sets of a fork, touched id by touched id in any order. */
  method MergeTable<R>(t: Table<R>, f: Table<R>) returns (m: Table<R>)
    ensures m == Merge(t, f)
  {
    m := t;
    var rest := f.upserts + f.deletes;
    ghost var done: set<nat> := {};
    MergeNone(t, f);
    while rest != {}
      invariant rest <= f.upserts + f.deletes && done == (f.upserts + f.deletes) - rest && m == MergePart(t, f, done)
      decreases |rest|
    {
      var id :| id in rest;
      MergeOne(t, f, done, id);
      if id in f.graph {
        m := MarkUpsert(m, id);
      } else {
        m := MarkDelete(m, id in t.base, id);
      }
      rest, done := rest - {id}, done + {id};
    }
    assert done == f.upserts + f.deletes;
    MergeAll(t, f);
    m := m.(graph := f.graph);
  }

  /** Add a child's keys to the parent's; too many keys give up on the record. */
  method MergeKeys(current: Option<seq<Text>>, keys: seq<Text>) returns (r: Option<seq<Text>>)
    ensures r == AddKeys(current, keys)
  {
    r := current;
    var rest := keys;
    while rest != []
      invariant AddKeys(r, rest) == AddKeys(current, keys)
      decreases |rest|
    {
      r := AddKey(r, rest[0]);
      rest := rest[1..];
    }
  }

  function TrackedPart<H>(s: Side<H>, f: Side<H>, done: set<nat>): Tracked {
    map id | id in s.tracked.Keys + done && (id in s.tracked || id in s.table.base) ::
      if id in done && id in s.table.base then MergedKeys(s, f, id) else s.tracked[id]
  }

  lemma TrackedEnds<H>(s: Side<H>, f: Side<H>)
    ensures TrackedPart(s, f, {}) == s.tracked && TrackedPart(s, f, f.table.upserts) == MergeTracked(s, f)
  {
  }

  lemma Progress(all: set<nat>, rest: set<nat>, id: nat)
    requires id in rest && rest <= all
    ensures (all - rest) + {id} == all - (rest - {id}) && id !in all - rest
  {
  }

  lemma TrackedOne<H>(s: Side<H>, f: Side<H>, done: set<nat>, id: nat)
    requires id !in done
    ensures TrackedPart(s, f, done + {id}) == if id in s.table.base then TrackedPart(s, f, done)[id := MergedKeys(s, f, id)] else TrackedPart(s, f, done)
  {
  }

  /** The keys of a record after a statement: the whole record when the fork did not track it. */
  method MergeKeysOf<H>(s: Side<H>, f: Side<H>, id: nat) returns (keys: Option<seq<Text>>)
    ensures keys == MergedKeys(s, f, id)
  {
    if id !in f.tracked || f.tracked[id].None? {
      return None;
    }
    keys := f.tracked[id];
    if id in s.tracked {
      keys := MergeKeys(s.tracked[id], keys.value);
    }
  }

  /** Merge the keys of one record of the base. */
  method MergeRecord<H>(s: Side<H>, f: Side<H>, tracked: Tracked, id: nat, ghost done: set<nat>) returns (r: Tracked)
    requires id !in done && tracked == TrackedPart(s, f, done)
    ensures r == TrackedPart(s, f, done + {id})
  {
    TrackedOne(s, f, done, id);
    r := tracked;
    if id in s.table.base {
      var keys := MergeKeysOf(s, f, id);
      r := tracked[id := keys];
    }
  }

  method MergeTracking<H>(s: Side<H>, f: Side<H>) returns (tracked: Tracked)
    ensures tracked == MergeTracked(s, f)
  {
    tracked := s.tracked;
    var all := f.table.upserts;
    var rest := all;
    ghost var done: set<nat> := {};
    TrackedEnds(s, f);
    while rest != {}
      invariant rest <= all && done == all - rest && tracked == TrackedPart(s, f, done)
      decreases |rest|
    {
      var id :| id in rest;
      Progress(all, rest, id);
      tracked := MergeRecord(s, f, tracked, id, done);
      rest, done := rest - {id}, done + {id};
    }
    assert done == all;
  }

  lemma RemoveNone<R>(t: Table<R>)
    ensures RemoveAll(t, {}) == t
  {
    assert t.graph - {} == t.graph;
  }

  lemma RemoveOneMore<R>(t: Table<R>, done: set<nat>, id: nat)
    ensures RemoveAll(t, done + {id}) == Remove(RemoveAll(t, done), id)
  {
    assert t.graph - (done + {id}) == (t.graph - done) - {id};
  }

  /** Nodes or edges of a transaction with what is remembered about their changes. */
  class Changes<H> {

    var table: Table<Record<H>>
    var copied: set<nat>
    var tracked: Tracked
    var born: nat

    function View(): Side<H>
      reads this
    {
      Side(table, copied, tracked, born)
    }

    constructor (records: map<nat, Record<H>>, next: nat)
      ensures View() == BeginSide(records, next)
    {
      table, copied, tracked, born := Table(records, records, {}, {}), {}, map[], next;
    }

    method Add(id: nat, record: Record<H>)
      modifies this
      ensures View() == Insert(old(View()), id, record)
    {
      table := Put(table, id, record);
      copied := copied + {id};
    }

    /** Delete some records one by one, in any order. */
    method Delete(ids: set<nat>)
      modifies this
      ensures View() == Erase(old(View()), ids)
    {
      var rest := ids;
      ghost var done: set<nat> := {};
      RemoveNone(table);
      while rest != {}
        invariant rest <= ids && done == ids - rest && tracked == old(tracked) && born == old(born)
        invariant table == RemoveAll(old(table), done) && copied == old(copied) - done
        decreases |rest|
      {
        var id :| id in rest;
        Progress(ids, rest, id);
        RemoveOneMore(old(table), done, id);
        table := Remove(table, id);
        copied := copied - {id};
        rest, done := rest - {id}, done + {id};
      }
      assert done == ids;
    }

    method MakeWritable(id: nat, propertiesOnly: bool, paged: bool)
      modifies this
      ensures View() == if propertiesOnly then Writable(old(View()), id) else Fallback(Writable(old(View()), id), paged, id)
    {
      if id !in copied {
        table := MarkUpsert(table, id);
        copied := copied + {id};
      }
      if !propertiesOnly && (paged || id in table.base) {
        tracked := tracked[id := None];
      }
    }

    method TrackProperty(id: nat, key: Text)
      modifies this`tracked
      ensures View() == Track(old(View()), id, key)
    {
      if id !in table.base {
        return;
      }
      if id !in tracked {
        tracked := tracked[id := Some([])];
      }
      var keys := tracked[id];
      if keys.Some? && key !in keys.value {
        if |keys.value| >= MAX_TRACKED {
          tracked := tracked[id := None];
          return;
        }
        tracked := tracked[id := Some(keys.value + [key])];
      }
    }

    method SetProperty(id: nat, key: Text, value: Option<Value>, refused: bool)
      modifies this
      ensures View() == SetKey(old(View()), id, key, value, refused)
    {
      if id !in table.graph {
        return;
      }
      MakeWritable(id, true, false);
      if !refused {
        table := table.(graph := table.graph[id := WithProperty(table.graph[id], key, value)]);
        TrackProperty(id, key);
      }
    }

    method Rewrite(id: nat, record: Record<H>, paged: bool)
      modifies this
      ensures View() == Overwrite(old(View()), paged, id, record)
    {
      if id in table.graph {
        MakeWritable(id, false, paged);
        table := table.(graph := table.graph[id := record]);
      }
    }

    method Adopt(child: Side<H>)
      modifies this
      ensures View() == MergeSides(old(View()), child)
    {
      var merged := MergeTable(table, child.table);
      var keys := MergeTracking(View(), child);
      copied := copied * child.table.graph.Keys + child.copied;
      table, tracked := merged, keys;
    }
  }

  /** A transaction, or the fork a statement runs in. */
  class Tx {

    const nodes: Changes<Labels>
    const edges: Changes<Ends>
    const paged: bool
    var texts: Table<string>

    function View(): State
      reads this, nodes, edges
    {
      State(nodes.View(), edges.View(), texts, paged)
    }

    constructor (nodes: map<nat, NodeRecord>, edges: map<nat, EdgeRecord>, texts: map<nat, string>, ids: Ids, paged: bool)
      ensures View() == Begun(nodes, edges, texts, ids, paged) && fresh(this.nodes) && fresh(this.edges)
    {
      this.nodes := new Changes(nodes, ids.node);
      this.edges := new Changes(edges, ids.edge);
      this.texts, this.paged := Table(texts, texts, {}, {}), paged;
    }

    /** Delete a node, its full-text entry and every edge at it. */
    method RemoveNode(id: nat)
      modifies this, nodes, edges
      ensures View() == Apply(old(View()), Ids(0, 0), DeleteNode(id))
    {
      if id in texts.graph {
        texts := Remove(texts, id);
      }
      nodes.Delete({id});
      edges.Delete(Incident(edges.table.graph, id));
    }

    method MutateNode(op: Op, ids: Ids)
      requires op.CreateNode? || op.SetProperty? || op.RewriteNode? || op.SetText?
      modifies this, nodes
      ensures View() == Apply(old(View()), ids, op)
    {
      match op
      case CreateNode(record) => nodes.Add(ids.node, record);
      case SetProperty(id, key, value, refused) => nodes.SetProperty(id, key, value, refused);
      case RewriteNode(id, record) => nodes.Rewrite(id, record, paged);
      case SetText(id, text) => if id in nodes.table.graph { texts := Put(texts, id, text); }
    }

    method MutateEdge(op: Op, ids: Ids)
      requires op.CreateEdge? || op.SetEdgeProperty? || op.RewriteEdge? || op.DeleteEdge?
      modifies edges
      ensures View() == Apply(old(View()), ids, op)
    {
      match op
      case CreateEdge(edge) => if EndsExist(View(), edge) { edges.Add(ids.edge, edge); }
      case SetEdgeProperty(id, key, value, refused) => edges.SetProperty(id, key, value, refused);
      case RewriteEdge(id, properties) =>
        if id in edges.table.graph { edges.Rewrite(id, edges.table.graph[id].(properties := properties), paged); }
      case DeleteEdge(id) => if id in edges.table.graph { edges.Delete({id}); }
    }

    /** Carry out one mutation; `later` are the next unused ids. */
    method Mutate(op: Op, ids: Ids) returns (later: Ids)
      modifies this, nodes, edges
      ensures View() == Apply(old(View()), ids, op) && later == After(old(View()), ids, op)
    {
      later := After(View(), ids, op);
      if op.DeleteNode? {
        RemoveNode(op.id);
      } else if op.CreateNode? || op.SetProperty? || op.RewriteNode? || op.SetText? {
        MutateNode(op, ids);
      } else {
        MutateEdge(op, ids);
      }
    }

    /** Run a statement in a fork. A statement that fails leaves this transaction as it was. */
    method RunStatement(ops: seq<Op>, succeeds: bool, ids: Ids) returns (later: Ids)
      modifies this, nodes, edges
      ensures (View(), later) == Perform(old(View()), ids, Statement(ops, succeeds))
      ensures succeeds ==> ContentsOf(View()) == Effects(old(ContentsOf(View())), ids, ops).0
      ensures !succeeds ==> View() == old(View())
    {
      StatementEffect(View(), ids, ops, succeeds);
      var fork := new Tx(nodes.table.graph, edges.table.graph, texts.graph, ids, paged);
      later := fork.MutateAll(ops, ids);
      if succeeds {
        Adopt(fork.View());
      }
    }

    method MutateAll(ops: seq<Op>, ids: Ids) returns (later: Ids)
      modifies this, nodes, edges
      ensures (View(), later) == ApplyAll(old(View()), ids, ops)
    {
      later := ids;
      var rest := ops;
      while rest != []
        invariant ApplyAll(View(), later, rest) == ApplyAll(old(View()), ids, ops)
        decreases |rest|
      {
        later := Mutate(rest[0], later);
        rest := rest[1..];
      }
    }

    method Adopt(child: State)
      modifies this, nodes, edges
      ensures View() == MergeStates(old(View()), child)
    {
      nodes.Adopt(child.nodes);
      edges.Adopt(child.edges);
      texts := MergeTable(texts, child.texts);
    }
  }
}
