/** What a write transaction remembers about its changes to nodes, edges and full-text entries:
    upserted and deleted ids and, for records that existed before, the property keys touched.
    Statements run in forks that are merged back. */
module TxDelta {

  import opened Optional
  import opened Values
  import opened Graphs

  // Tables: a base, the current contents and the ids that changed.

  datatype Table<R> = Table(base: map<nat, R>, graph: map<nat, R>, upserts: set<nat>, deletes: set<nat>)

  function MarkUpsert<R>(t: Table<R>, id: nat): Table<R> {
    t.(upserts := t.upserts + {id}, deletes := t.deletes - {id})
  }

  function MarkDelete<R>(t: Table<R>, existed: bool, id: nat): Table<R> {
    t.(upserts := t.upserts - {id}, deletes := if existed then t.deletes + {id} else t.deletes)
  }

  function Put<R>(t: Table<R>, id: nat, r: R): Table<R> {
    MarkUpsert(t, id).(graph := t.graph[id := r])
  }

  function Remove<R>(t: Table<R>, id: nat): Table<R> {
    MarkDelete(t, id in t.base, id).(graph := t.graph - {id})
  }

  /** The changes are exactly a delta from the base to the contents: the deleted ids are those that
      are gone, and whatever is not upserted is as in the base. */
  ghost predicate IsDelta<R>(t: Table<R>) {
    && t.deletes == t.base.Keys - t.graph.Keys
    && t.upserts <= t.graph.Keys
    && (forall id :: id in t.graph && id !in t.upserts ==> id in t.base && t.graph[id] == t.base[id])
  }

  lemma PutKeeps<R>(t: Table<R>, id: nat, r: R)
    requires IsDelta(t)
    ensures IsDelta(Put(t, id, r))
  {
  }

  lemma RemoveKeeps<R>(t: Table<R>, id: nat)
    requires IsDelta(t)
    ensures IsDelta(Remove(t, id))
  {
  }

  /** Many removals at once. */
  function RemoveAll<R>(t: Table<R>, ids: set<nat>): Table<R> {
    Table(t.base, t.graph - ids, t.upserts - ids, t.deletes + (ids * t.base.Keys))
  }

  lemma RemoveAllKeeps<R>(t: Table<R>, ids: set<nat>)
    requires IsDelta(t)
    ensures IsDelta(RemoveAll(t, ids))
  {
  }

  /** A fork starts from the current contents, with nothing changed. */
  function Fork<R>(t: Table<R>): Table<R> { Table(t.graph, t.graph, {}, {}) }

  /** Ids a fork touched: those that survive and those that do not. */
  function Kept<R>(f: Table<R>): set<nat> { set id | id in f.upserts + f.deletes && id in f.graph }

  function Gone<R>(f: Table<R>): set<nat> { set id | id in f.upserts + f.deletes && id !in f.graph }

  function Merge<R>(t: Table<R>, f: Table<R>): Table<R> {
    Table(t.base, f.graph, t.upserts - Gone(f) + Kept(f), (t.deletes - Kept(f)) + (Gone(f) * t.base.Keys))
  }

  /** Merging composes deltas. */
  lemma MergeKeeps<R>(t: Table<R>, f: Table<R>)
    requires IsDelta(t) && IsDelta(f) && f.base == t.graph
    ensures IsDelta(Merge(t, f))
  {
    var m := Merge(t, f);
    forall id | id in m.graph && id !in m.upserts ensures id in m.base && m.graph[id] == m.base[id] {
      assert id !in f.upserts;
    }
    forall id ensures id in m.deletes <==> id in t.base.Keys - f.graph.Keys {
      if id in t.base && id !in f.graph && id in t.graph { assert id in f.deletes; }
    }
  }

  /** Applying the delta to the base. */
  function Applied<R>(t: Table<R>): map<nat, R> {
    map id | id in t.base.Keys + t.graph.Keys && ((id in t.upserts && id in t.graph) || (id in t.base && id !in t.upserts && id !in t.deletes)) ::
      if id in t.upserts && id in t.graph then t.graph[id] else t.base[id]
  }

  lemma AppliedIsContents<R>(t: Table<R>)
    requires IsDelta(t)
    ensures Applied(t) == t.graph
  {
  }

  // Property keys.

  const MAX_TRACKED: nat := 64

  /** Touched keys per record; None means the whole record. */
  type Tracked = map<nat, Option<seq<Text>>>

  function AddKey(keys: Option<seq<Text>>, key: Text): Option<seq<Text>> {
    if keys.None? || key in keys.value then keys
    else if |keys.value| >= MAX_TRACKED then None
    else Some(keys.value + [key])
  }

  function AddKeys(keys: Option<seq<Text>>, more: seq<Text>): Option<seq<Text>>
    decreases |more|
  {
    if more == [] then keys else AddKeys(AddKey(keys, more[0]), more[1..])
  }

  function KeysOf(tracked: Tracked, id: nat): Option<seq<Text>> {
    if id in tracked then tracked[id] else Some([])
  }

  predicate SameAt(a: Properties, b: Properties, k: Text) {
    (k in a <==> k in b) && (k in a ==> a[k] == b[k])
  }

  /** The records differ at most in these properties. */
  ghost predicate DifferOnly<H>(old_record: Record<H>, new_record: Record<H>, keys: seq<Text>) {
    && old_record.head == new_record.head
    && forall k :: k !in keys ==> SameAt(old_record.properties, new_record.properties, k)
  }

  ghost predicate Explains<H>(keys: Option<seq<Text>>, old_record: Record<H>, new_record: Record<H>) {
    keys.Some? ==> |keys.value| <= MAX_TRACKED && DifferOnly(old_record, new_record, keys.value)
  }

  /** The base record with the tracked keys taken from the current one. */
  function Patch<H>(old_record: Record<H>, new_record: Record<H>, keys: seq<Text>): Record<H> {
    var kept := map k | k in old_record.properties && k !in keys :: old_record.properties[k];
    var touched := map k | k in new_record.properties && k in keys :: new_record.properties[k];
    Record(old_record.head, kept + touched)
  }

  lemma PatchIsExact<H>(old_record: Record<H>, new_record: Record<H>, keys: seq<Text>)
    requires DifferOnly(old_record, new_record, keys)
    ensures Patch(old_record, new_record, keys) == new_record
  {
    forall k ensures SameAt(Patch(old_record, new_record, keys).properties, new_record.properties, k) {
    }
  }

  function WithProperty<H>(r: Record<H>, key: Text, value: Option<Value>): Record<H> {
    r.(properties := if value.Some? then r.properties[key := value.value] else r.properties - {key})
  }

  lemma ChangeExplained<H>(keys: Option<seq<Text>>, old_record: Record<H>, r: Record<H>, key: Text, value: Option<Value>)
    requires Explains(keys, old_record, r)
    ensures Explains(AddKey(keys, key), old_record, WithProperty(r, key, value))
  {
  }

  lemma {:induction false} AddKeysCover(keys: Option<seq<Text>>, more: seq<Text>)
    requires keys.Some? ==> |keys.value| <= MAX_TRACKED
    ensures var all := AddKeys(keys, more);
            all.Some? ==> keys.Some? && |all.value| <= MAX_TRACKED && (forall k :: k in keys.value || k in more ==> k in all.value)
    decreases |more|
  {
    if more != [] { AddKeysCover(AddKey(keys, more[0]), more[1..]); }
  }

  lemma ExplanationsCompose<H>(a: Option<seq<Text>>, b: seq<Text>, x: Record<H>, y: Record<H>, z: Record<H>)
    requires Explains(a, x, y) && DifferOnly(y, z, b)
    ensures Explains(AddKeys(a, b), x, z)
  {
    AddKeysCover(a, b);
  }

  // One kind of record: the nodes, or the edges.

  /** The records, which of them are not the base's own, their tracked keys, and the first id not
      yet used when the transaction or fork began. */
  datatype Side<H> = Side(table: Table<Record<H>>, copied: set<nat>, tracked: Tracked, born: nat)

  function Insert<H>(s: Side<H>, id: nat, r: Record<H>): Side<H> {
    s.(table := Put(s.table, id, r), copied := s.copied + {id})
  }

  function Erase<H>(s: Side<H>, ids: set<nat>): Side<H> {
    s.(table := RemoveAll(s.table, ids), copied := s.copied - ids)
  }

  /** Copy on first write marks the record; later writes find it already copied. */
  function Writable<H>(s: Side<H>, id: nat): Side<H> {
    if id in s.copied then s else s.(table := MarkUpsert(s.table, id), copied := s.copied + {id})
  }

  function Track<H>(s: Side<H>, id: nat, key: Text): Side<H> {
    if id !in s.table.base then s else s.(tracked := s.tracked[id := AddKey(KeysOf(s.tracked, id), key)])
  }

  /** Give up tracking keys of a record; the base may be in memory or on pages. */
  function Fallback<H>(s: Side<H>, paged: bool, id: nat): Side<H> {
    if !paged && id !in s.table.base then s else s.(tracked := s.tracked[id := None])
  }

  function WithRecord<H>(s: Side<H>, id: nat, r: Record<H>): Side<H> {
    s.(table := s.table.(graph := s.table.graph[id := r]))
  }

  /** Set or remove a property. A value that is refused comes too late to prevent the copy. */
  function SetKey<H>(s: Side<H>, id: nat, key: Text, value: Option<Value>, refused: bool): Side<H> {
    if id !in s.table.graph then s
    else if refused then Writable(s, id)
    else Track(WithRecord(Writable(s, id), id, WithProperty(s.table.graph[id], key, value)), id, key)
  }

  function Overwrite<H>(s: Side<H>, paged: bool, id: nat, r: Record<H>): Side<H> {
    if id !in s.table.graph then s else WithRecord(Fallback(Writable(s, id), paged, id), id, r)
  }

  function BeginSide<H>(records: map<nat, Record<H>>, next: nat): Side<H> {
    Side(Table(records, records, {}, {}), {}, map[], next)
  }

  function MergedKeys<H>(s: Side<H>, f: Side<H>, id: nat): Option<seq<Text>> {
    var child := if id in f.tracked then f.tracked[id] else None;
    if child.None? then None
    else if id !in s.tracked then child
    else AddKeys(s.tracked[id], child.value)
  }

  function MergeTracked<H>(s: Side<H>, f: Side<H>): Tracked {
    map id | id in s.tracked.Keys + f.table.upserts && (id in s.tracked || id in s.table.base) ::
      if id in f.table.upserts && id in s.table.base then MergedKeys(s, f, id) else s.tracked[id]
  }

  function MergeSides<H>(s: Side<H>, f: Side<H>): Side<H> {
    Side(Merge(s.table, f.table), (s.copied * f.table.graph.Keys) + f.copied, MergeTracked(s, f), s.born)
  }

  /** New records have new ids. */
  ghost predicate FreshIds<H>(s: Side<H>, next: nat) {
    && s.born <= next
    && (forall id :: id in s.table.base ==> id < s.born)
    && (forall id :: id in s.table.graph ==> id < next)
    && (forall id :: id in s.table.graph && id !in s.table.base ==> s.born <= id)
  }

  /** Every record that existed before differs from its base at most in its tracked keys. */
  ghost predicate Explained<H>(s: Side<H>) {
    && (forall id :: id in s.tracked && s.tracked[id].Some? ==> id in s.table.base)
    && (forall id :: id in s.table.base && id in s.table.graph ==> Explains(KeysOf(s.tracked, id), s.table.base[id], s.table.graph[id]))
  }

  ghost predicate SideOk<H>(s: Side<H>, next: nat) {
    IsDelta(s.table) && FreshIds(s, next) && Explained(s) && s.copied <= s.table.upserts
  }

  lemma WritableKeeps<H>(s: Side<H>, next: nat, id: nat)
    requires SideOk(s, next) && id in s.table.graph
    ensures SideOk(Writable(s, id), next) && id in Writable(s, id).table.upserts
  {
  }

  lemma TrackKeeps<H>(s: Side<H>, next: nat, id: nat, key: Text, value: Option<Value>)
    requires SideOk(s, next) && id in s.table.graph && id in s.table.upserts
    ensures SideOk(Track(WithRecord(s, id, WithProperty(s.table.graph[id], key, value)), id, key), next)
  {
    if id in s.table.base { ChangeExplained(KeysOf(s.tracked, id), s.table.base[id], s.table.graph[id], key, value); }
  }

  lemma FallbackKeeps<H>(s: Side<H>, next: nat, paged: bool, id: nat, r: Record<H>)
    requires SideOk(s, next) && id in s.table.graph && id in s.table.upserts
    ensures SideOk(WithRecord(Fallback(s, paged, id), id, r), next)
  {
  }

  lemma SetKeyKeeps<H>(s: Side<H>, next: nat, id: nat, key: Text, value: Option<Value>, refused: bool)
    requires SideOk(s, next)
    ensures SideOk(SetKey(s, id, key, value, refused), next)
  {
    if id in s.table.graph {
      WritableKeeps(s, next, id);
      TrackKeeps(Writable(s, id), next, id, key, value);
    }
  }

  lemma OverwriteKeeps<H>(s: Side<H>, next: nat, paged: bool, id: nat, r: Record<H>)
    requires SideOk(s, next)
    ensures SideOk(Overwrite(s, paged, id, r), next)
  {
    if id in s.table.graph {
      WritableKeeps(s, next, id);
      FallbackKeeps(Writable(s, id), next, paged, id, r);
    }
  }

  lemma EraseKeeps<H>(s: Side<H>, next: nat, ids: set<nat>)
    requires SideOk(s, next)
    ensures SideOk(Erase(s, ids), next)
  {
    RemoveAllKeeps(s.table, ids);
  }

  lemma InsertKeeps<H>(s: Side<H>, next: nat, r: Record<H>)
    requires SideOk(s, next)
    ensures SideOk(Insert(s, next, r), next + 1)
  {
    PutKeeps(s.table, next, r);
  }

  lemma LaterIds<H>(s: Side<H>, next: nat, later: nat)
    requires SideOk(s, next) && next <= later
    ensures SideOk(s, later)
  {
  }

  lemma MergeExplains<H>(s: Side<H>, f: Side<H>, id: nat)
    requires Explained(s) && Explained(f) && IsDelta(f.table) && f.table.base == s.table.graph
    requires id in s.table.base && id in f.table.graph && id in s.table.graph
    ensures Explains(KeysOf(MergeTracked(s, f), id), s.table.base[id], f.table.graph[id])
  {
    if id in f.table.upserts && id in f.tracked && f.tracked[id].Some? {
      var keys, x, y, z := f.tracked[id].value, s.table.base[id], s.table.graph[id], f.table.graph[id];
      assert Explains(KeysOf(s.tracked, id), x, y) && Explains(KeysOf(f.tracked, id), y, z);
      if id in s.tracked {
        ExplanationsCompose(s.tracked[id], keys, x, y, z);
      }
    } else if id !in f.table.upserts {
      assert KeysOf(MergeTracked(s, f), id) == KeysOf(s.tracked, id);
    }
  }

  lemma MergeFresh<H>(s: Side<H>, f: Side<H>, start: nat, next: nat)
    requires FreshIds(s, start) && FreshIds(f, next) && f.table.base == s.table.graph && f.born == start
    ensures FreshIds(MergeSides(s, f), next)
  {
  }

  lemma MergeCopied<H>(s: Side<H>, f: Side<H>)
    requires s.copied <= s.table.upserts && f.copied <= f.table.upserts && f.table.upserts <= f.table.graph.Keys
    ensures MergeSides(s, f).copied <= MergeSides(s, f).table.upserts
  {
  }

  /** A record of the base that survives the fork was there when the fork began. */
  lemma SurvivorsWereThere<H>(s: Side<H>, f: Side<H>, start: nat, next: nat, id: nat)
    requires FreshIds(s, start) && FreshIds(f, next) && f.table.base == s.table.graph && f.born == start
    requires id in s.table.base && id in f.table.graph
    ensures id in s.table.graph
  {
  }

  lemma MergeSidesKeeps<H>(s: Side<H>, f: Side<H>, start: nat, next: nat)
    requires SideOk(s, start) && SideOk(f, next) && f.table.base == s.table.graph && f.born == start
    ensures SideOk(MergeSides(s, f), next)
  {
    var m := MergeSides(s, f);
    MergeKeeps(s.table, f.table);
    forall id | id in s.table.base && id in f.table.graph ensures Explains(KeysOf(m.tracked, id), s.table.base[id], f.table.graph[id]) {
      SurvivorsWereThere(s, f, start, next, id);
      MergeExplains(s, f, id);
    }
    MergeFresh(s, f, start, next);
    MergeCopied(s, f);
  }

  /** What is persisted: tracked records as patches of the base, the other upserts in full. */
  function Persisted<H>(s: Side<H>): map<nat, Record<H>> {
    var t := s.table;
    map id | id in Applied(t) ::
      if id in t.upserts && id in t.graph && id in t.base && id in s.tracked && s.tracked[id].Some?
      then Patch(t.base[id], t.graph[id], s.tracked[id].value) else Applied(t)[id]
  }

  lemma PersistedIsContents<H>(s: Side<H>, next: nat)
    requires SideOk(s, next)
    ensures Applied(s.table) == s.table.graph && Persisted(s) == s.table.graph
  {
    AppliedIsContents(s.table);
    forall id | id in s.table.upserts && id in s.table.base && id in s.tracked && s.tracked[id].Some?
      ensures Patch(s.table.base[id], s.table.graph[id], s.tracked[id].value) == s.table.graph[id] {
      assert Explains(KeysOf(s.tracked, id), s.table.base[id], s.table.graph[id]);
      PatchIsExact(s.table.base[id], s.table.graph[id], s.tracked[id].value);
    }
  }

  // The transaction.

  type Labels = set<string>

  datatype State = State(nodes: Side<Labels>, edges: Side<Ends>, texts: Table<string>, paged: bool)

  /** The next node and edge ids. */
  datatype Ids = Ids(node: nat, edge: nat)

  datatype Op =
    | CreateNode(record: NodeRecord)
    | SetProperty(id: nat, key: Text, value: Option<Value>, refused: bool)
    | RewriteNode(id: nat, record: NodeRecord)
    | DeleteNode(id: nat)
    | SetText(id: nat, text: string)
    | CreateEdge(edge: EdgeRecord)
    | SetEdgeProperty(id: nat, key: Text, value: Option<Value>, refused: bool)
    | RewriteEdge(id: nat, properties: Properties)
    | DeleteEdge(id: nat)

  /** The edges at either end of a node. */
  function Incident(edges: map<nat, EdgeRecord>, n: nat): set<nat> {
    set e | e in edges && (edges[e].head.source == n || edges[e].head.target == n)
  }

  predicate EndsExist(s: State, e: EdgeRecord) {
    e.head.source in s.nodes.table.graph && e.head.target in s.nodes.table.graph
  }

  /** One mutation; missing records are refused, and an edge keeps its ends for life. */
  function Apply(s: State, ids: Ids, op: Op): State {
    match op
    case CreateNode(record) => s.(nodes := Insert(s.nodes, ids.node, record))
    case SetProperty(id, key, value, refused) => s.(nodes := SetKey(s.nodes, id, key, value, refused))
    case RewriteNode(id, record) => s.(nodes := Overwrite(s.nodes, s.paged, id, record))
    case DeleteNode(id) =>
      State(Erase(s.nodes, {id}), Erase(s.edges, Incident(s.edges.table.graph, id)),
            if id in s.texts.graph then Remove(s.texts, id) else s.texts, s.paged)
    case SetText(id, text) => if id !in s.nodes.table.graph then s else s.(texts := Put(s.texts, id, text))
    case CreateEdge(edge) => if EndsExist(s, edge) then s.(edges := Insert(s.edges, ids.edge, edge)) else s
    case SetEdgeProperty(id, key, value, refused) => s.(edges := SetKey(s.edges, id, key, value, refused))
    case RewriteEdge(id, properties) =>
      if id !in s.edges.table.graph then s
      else s.(edges := Overwrite(s.edges, s.paged, id, s.edges.table.graph[id].(properties := properties)))
    case DeleteEdge(id) => if id !in s.edges.table.graph then s else s.(edges := Erase(s.edges, {id}))
  }

  /** Ids are handed out to what is created. */
  function After(s: State, ids: Ids, op: Op): Ids {
    if op.CreateNode? then ids.(node := ids.node + 1)
    else if op.CreateEdge? && EndsExist(s, op.edge) then ids.(edge := ids.edge + 1)
    else ids
  }

  function ForkState(s: State, ids: Ids): State {
    State(BeginSide(s.nodes.table.graph, ids.node), BeginSide(s.edges.table.graph, ids.edge), Fork(s.texts), s.paged)
  }

  function MergeStates(s: State, f: State): State {
    State(MergeSides(s.nodes, f.nodes), MergeSides(s.edges, f.edges), Merge(s.texts, f.texts), s.paged)
  }

  // What is kept.

  /** No edge and no full-text entry outlives its nodes. */
  ghost predicate Sound(nodes: map<nat, NodeRecord>, edges: map<nat, EdgeRecord>, texts: map<nat, string>) {
    NoDangling(nodes, edges) && texts.Keys <= nodes.Keys
  }

  ghost predicate Valid(s: State, ids: Ids) {
    var nodes, edges, texts := SideOk(s.nodes, ids.node), SideOk(s.edges, ids.edge), IsDelta(s.texts);
    nodes && edges && texts && Sound(s.nodes.table.graph, s.edges.table.graph, s.texts.graph)
  }

  lemma DeleteNodeKeeps(s: State, ids: Ids, id: nat)
    requires Valid(s, ids)
    ensures Valid(Apply(s, ids, DeleteNode(id)), ids)
  {
    EraseKeeps(s.nodes, ids.node, {id});
    EraseKeeps(s.edges, ids.edge, Incident(s.edges.table.graph, id));
    RemoveKeeps(s.texts, id);
  }

  /** Changing nodes without removing any keeps edges and texts where they belong. */
  lemma NodesChanged(s: State, ids: Ids, nodes: Side<Labels>, next: nat)
    requires Valid(s, ids) && SideOk(nodes, next) && s.nodes.table.graph.Keys <= nodes.table.graph.Keys
    ensures Valid(s.(nodes := nodes), ids.(node := next))
  {
  }

  lemma SetNodeKeeps(s: State, ids: Ids, id: nat, key: Text, value: Option<Value>, refused: bool)
    requires Valid(s, ids)
    ensures Valid(s.(nodes := SetKey(s.nodes, id, key, value, refused)), ids)
  {
    SetKeyKeeps(s.nodes, ids.node, id, key, value, refused);
    NodesChanged(s, ids, SetKey(s.nodes, id, key, value, refused), ids.node);
  }

  lemma RewriteNodeKeeps(s: State, ids: Ids, id: nat, record: NodeRecord)
    requires Valid(s, ids)
    ensures Valid(s.(nodes := Overwrite(s.nodes, s.paged, id, record)), ids)
  {
    OverwriteKeeps(s.nodes, ids.node, s.paged, id, record);
    NodesChanged(s, ids, Overwrite(s.nodes, s.paged, id, record), ids.node);
  }

  lemma CreateNodeKeeps(s: State, ids: Ids, record: NodeRecord)
    requires Valid(s, ids)
    ensures Valid(s.(nodes := Insert(s.nodes, ids.node, record)), ids.(node := ids.node + 1))
  {
    InsertKeeps(s.nodes, ids.node, record);
    NodesChanged(s, ids, Insert(s.nodes, ids.node, record), ids.node + 1);
  }

  /** Nothing new, and what is left keeps what is not a property. */
  ghost predicate SameHeads<H>(before: map<nat, Record<H>>, after: map<nat, Record<H>>) {
    forall id :: id in after ==> id in before && after[id].head == before[id].head
  }

  lemma SetKeyHeads<H>(s: Side<H>, id: nat, key: Text, value: Option<Value>, refused: bool)
    ensures SameHeads(s.table.graph, SetKey(s, id, key, value, refused).table.graph)
  {
  }

  lemma OverwriteHeads<H>(s: Side<H>, paged: bool, id: nat, properties: Properties)
    requires id in s.table.graph
    ensures SameHeads(s.table.graph, Overwrite(s, paged, id, s.table.graph[id].(properties := properties)).table.graph)
  {
  }

  /** Edges that keep their ends, or vanish, do not start to dangle. */
  lemma EdgesChanged(s: State, ids: Ids, edges: Side<Ends>)
    requires Valid(s, ids) && SideOk(edges, ids.edge) && SameHeads(s.edges.table.graph, edges.table.graph)
    ensures Valid(s.(edges := edges), ids)
  {
  }

  lemma CreateEdgeKeeps(s: State, ids: Ids, edge: EdgeRecord)
    requires Valid(s, ids) && EndsExist(s, edge)
    ensures Valid(s.(edges := Insert(s.edges, ids.edge, edge)), ids.(edge := ids.edge + 1))
  {
    InsertKeeps(s.edges, ids.edge, edge);
  }

  lemma SetEdgeKeeps(s: State, ids: Ids, id: nat, key: Text, value: Option<Value>, refused: bool)
    requires Valid(s, ids)
    ensures Valid(s.(edges := SetKey(s.edges, id, key, value, refused)), ids)
  {
    SetKeyKeeps(s.edges, ids.edge, id, key, value, refused);
    SetKeyHeads(s.edges, id, key, value, refused);
    EdgesChanged(s, ids, SetKey(s.edges, id, key, value, refused));
  }

  lemma RewriteEdgeKeeps(s: State, ids: Ids, id: nat, properties: Properties)
    requires Valid(s, ids) && id in s.edges.table.graph
    ensures Valid(s.(edges := Overwrite(s.edges, s.paged, id, s.edges.table.graph[id].(properties := properties))), ids)
  {
    var record := s.edges.table.graph[id].(properties := properties);
    OverwriteKeeps(s.edges, ids.edge, s.paged, id, record);
    OverwriteHeads(s.edges, s.paged, id, properties);
    EdgesChanged(s, ids, Overwrite(s.edges, s.paged, id, record));
  }

  lemma DeleteEdgeKeeps(s: State, ids: Ids, id: nat)
    requires Valid(s, ids)
    ensures Valid(s.(edges := Erase(s.edges, {id})), ids)
  {
    EraseKeeps(s.edges, ids.edge, {id});
    EdgesChanged(s, ids, Erase(s.edges, {id}));
  }

  lemma NodeOpKeeps(s: State, ids: Ids, op: Op)
    requires Valid(s, ids) && (op.CreateNode? || op.SetProperty? || op.RewriteNode? || op.DeleteNode? || op.SetText?)
    ensures Valid(Apply(s, ids, op), After(s, ids, op))
  {
    match op
    case DeleteNode(id) => DeleteNodeKeeps(s, ids, id);
    case CreateNode(record) => CreateNodeKeeps(s, ids, record);
    case SetProperty(id, key, value, refused) => SetNodeKeeps(s, ids, id, key, value, refused);
    case RewriteNode(id, record) => RewriteNodeKeeps(s, ids, id, record);
    case SetText(id, text) => PutKeeps(s.texts, id, text);
  }

  lemma EdgeOpKeeps(s: State, ids: Ids, op: Op)
    requires Valid(s, ids) && (op.CreateEdge? || op.SetEdgeProperty? || op.RewriteEdge? || op.DeleteEdge?)
    ensures Valid(Apply(s, ids, op), After(s, ids, op))
  {
    match op
    case CreateEdge(edge) => if EndsExist(s, edge) { CreateEdgeKeeps(s, ids, edge); }
    case SetEdgeProperty(id, key, value, refused) => SetEdgeKeeps(s, ids, id, key, value, refused);
    case RewriteEdge(id, properties) => if id in s.edges.table.graph { RewriteEdgeKeeps(s, ids, id, properties); }
    case DeleteEdge(id) => if id in s.edges.table.graph { DeleteEdgeKeeps(s, ids, id); }
  }

  lemma ApplyKeeps(s: State, ids: Ids, op: Op)
    requires Valid(s, ids)
    ensures Valid(Apply(s, ids, op), After(s, ids, op))
  {
    if op.CreateEdge? || op.SetEdgeProperty? || op.RewriteEdge? || op.DeleteEdge? {
      EdgeOpKeeps(s, ids, op);
    } else {
      NodeOpKeeps(s, ids, op);
    }
  }

  /** The fork started from the transaction's contents. */
  ghost predicate ForkOf(f: State, s: State, start: Ids) {
    && f.nodes.table.base == s.nodes.table.graph && f.edges.table.base == s.edges.table.graph && f.texts.base == s.texts.graph
    && f.nodes.born == start.node && f.edges.born == start.edge
  }

  lemma MergeStatesKeeps(s: State, f: State, start: Ids, ids: Ids)
    requires Valid(s, start) && Valid(f, ids) && ForkOf(f, s, start)
    ensures Valid(MergeStates(s, f), ids)
  {
    MergeSidesKeeps(s.nodes, f.nodes, start.node, ids.node);
    MergeSidesKeeps(s.edges, f.edges, start.edge, ids.edge);
    MergeKeeps(s.texts, f.texts);
  }

  lemma ForkValid(s: State, ids: Ids)
    requires Valid(s, ids)
    ensures Valid(ForkState(s, ids), ids)
  {
  }

  // Runs: direct mutations and statements, which may fail and leave nothing behind.

  datatype Action = Direct(op: Op) | Statement(ops: seq<Op>, succeeds: bool)

  /** What neither a mutation nor a statement changes. */
  ghost predicate SameStart(s: State, t: State) {
    && t.nodes.table.base == s.nodes.table.base && t.edges.table.base == s.edges.table.base && t.texts.base == s.texts.base
    && t.nodes.born == s.nodes.born && t.edges.born == s.edges.born
  }

  predicate NotBefore(ids: Ids, later: Ids) { ids.node <= later.node && ids.edge <= later.edge }

  function ApplyAll(s: State, ids: Ids, ops: seq<Op>): (State, Ids)
    decreases |ops|
  {
    if ops == [] then (s, ids) else ApplyAll(Apply(s, ids, ops[0]), After(s, ids, ops[0]), ops[1..])
  }

  lemma {:induction false} ApplyAllKeeps(s: State, ids: Ids, ops: seq<Op>)
    requires Valid(s, ids)
    ensures var (t, later) := ApplyAll(s, ids, ops); Valid(t, later) && NotBefore(ids, later) && SameStart(s, t)
    decreases |ops|
  {
    if ops != [] {
      ApplyKeeps(s, ids, ops[0]);
      StartKept(s, ids, ops[0]);
      ApplyAllKeeps(Apply(s, ids, ops[0]), After(s, ids, ops[0]), ops[1..]);
    }
  }

  lemma StartKept(s: State, ids: Ids, op: Op)
    ensures SameStart(s, Apply(s, ids, op))
  {
  }

  /** Ids are handed out even to a statement that fails. */
  function Perform(s: State, ids: Ids, action: Action): (State, Ids) {
    match action
    case Direct(op) => (Apply(s, ids, op), After(s, ids, op))
    case Statement(ops, succeeds) =>
      var (f, later) := ApplyAll(ForkState(s, ids), ids, ops);
      (if succeeds then MergeStates(s, f) else s, later)
  }

  lemma PerformKeeps(s: State, ids: Ids, action: Action)
    requires Valid(s, ids)
    ensures var (t, later) := Perform(s, ids, action); Valid(t, later) && SameStart(s, t)
  {
    match action
    case Direct(op) =>
      ApplyKeeps(s, ids, op);
      StartKept(s, ids, op);
    case Statement(ops, succeeds) =>
      var (f, later) := ApplyAll(ForkState(s, ids), ids, ops);
      ForkValid(s, ids);
      ApplyAllKeeps(ForkState(s, ids), ids, ops);
      if succeeds {
        MergeStatesKeeps(s, f, ids, later);
      } else {
        LaterIds(s.nodes, ids.node, later.node);
        LaterIds(s.edges, ids.edge, later.edge);
      }
  }

  function Run(s: State, ids: Ids, actions: seq<Action>): (State, Ids)
    decreases |actions|
  {
    if actions == [] then (s, ids)
    else var (t, later) := Perform(s, ids, actions[0]); Run(t, later, actions[1..])
  }

  /** A transaction that has just begun. */
  function Begun(nodes: map<nat, NodeRecord>, edges: map<nat, EdgeRecord>, texts: map<nat, string>, ids: Ids, paged: bool): State {
    State(BeginSide(nodes, ids.node), BeginSide(edges, ids.edge), Table(texts, texts, {}, {}), paged)
  }

  lemma {:induction false} RunKeeps(s: State, ids: Ids, actions: seq<Action>)
    requires Valid(s, ids)
    ensures var (t, later) := Run(s, ids, actions); Valid(t, later) && SameStart(s, t)
    decreases |actions|
  {
    if actions != [] {
      PerformKeeps(s, ids, actions[0]);
      var (t, later) := Perform(s, ids, actions[0]);
      RunKeeps(t, later, actions[1..]);
    }
  }

  // What the transaction should contain, without change sets, copies or forks.

  datatype Contents = Contents(nodes: map<nat, NodeRecord>, edges: map<nat, EdgeRecord>, texts: map<nat, string>)

  function ContentsOf(s: State): Contents { Contents(s.nodes.table.graph, s.edges.table.graph, s.texts.graph) }

  function Assigned(properties: Properties, key: Text, value: Option<Value>): Properties {
    if value.Some? then properties[key := value.value] else properties - {key}
  }

  /** The plain meaning of a mutation. */
  function Effect(c: Contents, ids: Ids, op: Op): Contents {
    match op
    case CreateNode(record) => c.(nodes := c.nodes[ids.node := record])
    case SetProperty(id, key, value, refused) =>
      if id in c.nodes && !refused then c.(nodes := c.nodes[id := Record(c.nodes[id].head, Assigned(c.nodes[id].properties, key, value))]) else c
    case RewriteNode(id, record) => if id in c.nodes then c.(nodes := c.nodes[id := record]) else c
    case DeleteNode(id) => Contents(c.nodes - {id}, EdgesAway(c.edges, id), c.texts - {id})
    case SetText(id, text) => if id in c.nodes then c.(texts := c.texts[id := text]) else c
    case CreateEdge(edge) =>
      if edge.head.source in c.nodes && edge.head.target in c.nodes then c.(edges := c.edges[ids.edge := edge]) else c
    case SetEdgeProperty(id, key, value, refused) =>
      if id in c.edges && !refused then c.(edges := c.edges[id := Record(c.edges[id].head, Assigned(c.edges[id].properties, key, value))]) else c
    case RewriteEdge(id, properties) => if id in c.edges then c.(edges := c.edges[id := Record(c.edges[id].head, properties)]) else c
    case DeleteEdge(id) => c.(edges := c.edges - {id})
  }

  /** Creating a node takes a node id, creating an edge between existing nodes an edge id. */
  function Taken(c: Contents, ids: Ids, op: Op): Ids {
    if op.CreateNode? then Ids(ids.node + 1, ids.edge)
    else if op.CreateEdge? && op.edge.head.source in c.nodes && op.edge.head.target in c.nodes then Ids(ids.node, ids.edge + 1)
    else ids
  }

  function Effects(c: Contents, ids: Ids, ops: seq<Op>): (Contents, Ids)
    decreases |ops|
  {
    if ops == [] then (c, ids) else Effects(Effect(c, ids, ops[0]), Taken(c, ids, ops[0]), ops[1..])
  }

  /** A mutation takes effect, a successful statement as its mutations in order, and a failed one not
      at all, except that it uses up ids. */
  function Outcome(c: Contents, ids: Ids, actions: seq<Action>): (Contents, Ids)
    decreases |actions|
  {
    if actions == [] then (c, ids)
    else match actions[0]
      case Direct(op) => Outcome(Effect(c, ids, op), Taken(c, ids, op), actions[1..])
      case Statement(ops, true) => Outcome(Effects(c, ids, ops).0, Effects(c, ids, ops).1, actions[1..])
      case Statement(ops, false) => Outcome(c, Effects(c, ids, ops).1, actions[1..])
  }

  lemma SetKeyEffect<H>(s: Side<H>, id: nat, key: Text, value: Option<Value>, refused: bool)
    ensures var g, h := s.table.graph, SetKey(s, id, key, value, refused).table.graph;
            h == if id in g && !refused then g[id := Record(g[id].head, Assigned(g[id].properties, key, value))] else g
  {
  }

  lemma OverwriteEffect<H>(s: Side<H>, paged: bool, id: nat, r: Record<H>)
    ensures Overwrite(s, paged, id, r).table.graph == if id in s.table.graph then s.table.graph[id := r] else s.table.graph
  {
  }

  lemma CascadeEffect(edges: map<nat, EdgeRecord>, n: nat)
    ensures edges - Incident(edges, n) == EdgesAway(edges, n)
  {
  }

  /** With all its bookkeeping, a mutation has its plain effect. */
  lemma ApplyEffect(s: State, ids: Ids, op: Op)
    ensures ContentsOf(Apply(s, ids, op)) == Effect(ContentsOf(s), ids, op)
    ensures After(s, ids, op) == Taken(ContentsOf(s), ids, op)
  {
    match op
    case CreateNode(record) =>
    case SetProperty(id, key, value, refused) => SetKeyEffect(s.nodes, id, key, value, refused);
    case RewriteNode(id, record) => OverwriteEffect(s.nodes, s.paged, id, record);
    case DeleteNode(id) => DeleteEffect(s, ids, id);
    case SetText(id, text) =>
    case CreateEdge(edge) =>
    case SetEdgeProperty(id, key, value, refused) => SetKeyEffect(s.edges, id, key, value, refused);
    case RewriteEdge(id, properties) =>
      if id in s.edges.table.graph { OverwriteEffect(s.edges, s.paged, id, s.edges.table.graph[id].(properties := properties)); }
    case DeleteEdge(id) => assert id !in s.edges.table.graph ==> s.edges.table.graph - {id} == s.edges.table.graph;
  }

  lemma DeleteEffect(s: State, ids: Ids, id: nat)
    ensures ContentsOf(Apply(s, ids, DeleteNode(id))) == Effect(ContentsOf(s), ids, DeleteNode(id))
  {
    CascadeEffect(s.edges.table.graph, id);
    assert id !in s.texts.graph ==> s.texts.graph - {id} == s.texts.graph;
  }

  lemma {:induction false} ApplyAllEffects(s: State, ids: Ids, ops: seq<Op>)
    ensures ContentsOf(ApplyAll(s, ids, ops).0) == Effects(ContentsOf(s), ids, ops).0
    ensures ApplyAll(s, ids, ops).1 == Effects(ContentsOf(s), ids, ops).1
    decreases |ops|
  {
    if ops != [] {
      ApplyEffect(s, ids, ops[0]);
      ApplyAllEffects(Apply(s, ids, ops[0]), After(s, ids, ops[0]), ops[1..]);
    }
  }

  /** A statement that succeeds leaves the contents its mutations leave in order; one that fails
      leaves everything as it was, change sets included. Ids are used up either way. */
  lemma StatementEffect(s: State, ids: Ids, ops: seq<Op>, succeeds: bool)
    ensures var (t, later) := Perform(s, ids, Statement(ops, succeeds));
            && (succeeds ==> ContentsOf(t) == Effects(ContentsOf(s), ids, ops).0) && (!succeeds ==> t == s)
            && later == Effects(ContentsOf(s), ids, ops).1
  {
    ApplyAllEffects(ForkState(s, ids), ids, ops);
    assert ContentsOf(ForkState(s, ids)) == ContentsOf(s);
  }

  lemma {:induction false} RunIsOutcome(s: State, ids: Ids, actions: seq<Action>)
    ensures ContentsOf(Run(s, ids, actions).0) == Outcome(ContentsOf(s), ids, actions).0
    ensures Run(s, ids, actions).1 == Outcome(ContentsOf(s), ids, actions).1
    decreases |actions|
  {
    if actions != [] {
      match actions[0] {
        case Direct(op) => ApplyEffect(s, ids, op);
        case Statement(ops, succeeds) => StatementEffect(s, ids, ops, succeeds);
      }
      var (t, later) := Perform(s, ids, actions[0]);
      RunIsOutcome(t, later, actions[1..]);
    }
  }

  /** The changes recorded for a table are a delta from the base it began with to its contents. */
  ghost predicate Delivers<R>(t: Table<R>, base: map<nat, R>) {
    t.base == base && Applied(t) == t.graph && t.deletes == base.Keys - t.graph.Keys && t.upserts <= t.graph.Keys
  }

  /** After any mix of mutations and statements, applying the upserts and deletes to what the
      transaction began with gives the nodes, edges and full-text entries that the mutations plainly
      lead to, with full records and with patches alike, and nothing in the result refers to a node
      that is gone. */
  lemma DeltaIsExact(nodes: map<nat, NodeRecord>, edges: map<nat, EdgeRecord>, texts: map<nat, string>, ids: Ids, paged: bool, actions: seq<Action>)
    requires (forall id :: id in nodes ==> id < ids.node) && (forall id :: id in edges ==> id < ids.edge) && Sound(nodes, edges, texts)
    ensures var s := Run(Begun(nodes, edges, texts, ids, paged), ids, actions).0;
            && Delivers(s.nodes.table, nodes) && Delivers(s.edges.table, edges) && Delivers(s.texts, texts)
            && Contents(Persisted(s.nodes), Persisted(s.edges), Applied(s.texts)) == Outcome(Contents(nodes, edges, texts), ids, actions).0
            && Sound(Persisted(s.nodes), Persisted(s.edges), Applied(s.texts))
  {
    var s := Begun(nodes, edges, texts, ids, paged);
    assert Valid(s, ids);
    RunKeeps(s, ids, actions);
    var (t, later) := Run(s, ids, actions);
    PersistedIsContents(t.nodes, later.node);
    PersistedIsContents(t.edges, later.edge);
    AppliedIsContents(t.texts);
    RunIsOutcome(s, ids, actions);
  }
}
