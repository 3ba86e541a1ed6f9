/** Online rebuild of the vector index: a private copy is built from a snapshot while commits go
    on; commits log what they change, the log is replayed, and the result is published only when
    nothing is left to replay and no writer is active. */
module VectorRebuild {

  import opened Optional
  import opened Orders

  type Vector = seq<int>

  type Vectors = map<nat, Vector>

  function At(m: Vectors, id: nat): Option<Vector> { if id in m then Some(m[id]) else None }

  datatype Delta = Delta(id: nat, before: Option<Vector>, after: Option<Vector>)

  function ApplyDelta(m: Vectors, d: Delta): Vectors {
    if d.after.Some? then m[d.id := d.after.value] else m - {d.id}
  }

  function Replay(m: Vectors, log: seq<Delta>): Vectors
    decreases |log|
  {
    if log == [] then m else Replay(ApplyDelta(m, log[0]), log[1..])
  }

  /** Every change in the log starts from what the changes before it left behind. */
  ghost predicate Follows(m: Vectors, log: seq<Delta>)
    decreases |log|
  {
    log == [] || (At(m, log[0].id) == log[0].before && Follows(ApplyDelta(m, log[0]), log[1..]))
  }

  lemma {:induction false} ReplayConcat(m: Vectors, a: seq<Delta>, b: seq<Delta>)
    ensures Replay(m, a + b) == Replay(Replay(m, a), b)
    ensures Follows(m, a + b) <==> Follows(m, a) && Follows(Replay(m, a), b)
    decreases |a|
  {
    if a == [] {
      assert a + b == b;
    } else {
      assert (a + b)[1..] == a[1..] + b;
      ReplayConcat(ApplyDelta(m, a[0]), a[1..], b);
    }
  }

  lemma ReplayOne(m: Vectors, d: Delta)
    ensures Replay(m, [d]) == ApplyDelta(m, d) && (Follows(m, [d]) <==> At(m, d.id) == d.before)
  {
    assert Replay(ApplyDelta(m, d), [d][1..]) == ApplyDelta(m, d);
  }

  /** The live count after one change. */
  function CountDelta(live: nat, d: Delta): nat {
    if d.before.None? && d.after.Some? then live + 1
    else if d.before.Some? && d.after.None? && live > 0 then live - 1
    else live
  }

  lemma CountIsExact(m: Vectors, d: Delta)
    requires At(m, d.id) == d.before
    ensures CountDelta(|m|, d) == |ApplyDelta(m, d)|
  {
    if d.after.Some? {
      SizeWith(m, d.id, d.after.value);
    } else {
      SizeWithout(m, d.id);
    }
  }

  lemma SizeWith(m: Vectors, id: nat, v: Vector)
    ensures |m[id := v]| == if id in m then |m| else |m| + 1
  {
    var n := m[id := v];
    assert n.Keys == m.Keys + {id} && |m.Keys| == |m| && |n.Keys| == |n|;
  }

  lemma SizeWithout(m: Vectors, id: nat)
    ensures |m - {id}| == if id in m then |m| - 1 else |m|
  {
    var n := m - {id};
    assert n.Keys == m.Keys - {id} && |m.Keys| == |m| && |n.Keys| == |n|;
  }

  /** The live count after a whole log. */
  function CountAll(live: nat, log: seq<Delta>): nat
    decreases |log|
  {
    if log == [] then live else CountAll(CountDelta(live, log[0]), log[1..])
  }

  lemma {:induction false} CountAllExact(m: Vectors, log: seq<Delta>)
    requires Follows(m, log)
    ensures CountAll(|m|, log) == |Replay(m, log)|
    decreases |log|
  {
    if log != [] {
      CountIsExact(m, log[0]);
      CountAllExact(ApplyDelta(m, log[0]), log[1..]);
    }
  }

  // The log of one commit.

  /** The change of one id between two graphs, if any. */
  function Change(before: Vectors, after: Vectors, id: nat): seq<Delta> {
    if At(before, id) == At(after, id) then [] else [Delta(id, At(before, id), At(after, id))]
  }

  function Changes(before: Vectors, after: Vectors, ids: seq<nat>): seq<Delta> {
    if ids == [] then [] else Changes(before, after, ids[..|ids| - 1]) + Change(before, after, ids[|ids| - 1])
  }

  /** The vectors of some ids from one graph, the others from the other. */
  function Blend(before: Vectors, after: Vectors, ids: seq<nat>): Vectors {
    map id | id in before.Keys + after.Keys && (if id in ids then id in after else id in before) :: if id in ids then after[id] else before[id]
  }

  lemma BlendStep(before: Vectors, after: Vectors, ids: seq<nat>, id: nat)
    requires id !in ids
    ensures At(Blend(before, after, ids), id) == At(before, id)
    ensures Replay(Blend(before, after, ids), Change(before, after, id)) == Blend(before, after, ids + [id])
    ensures Follows(Blend(before, after, ids), Change(before, after, id))
  {
    var m, n := Blend(before, after, ids), Blend(before, after, ids + [id]);
    if At(before, id) == At(after, id) {
      assert m == n;
    } else {
      var d := Delta(id, At(before, id), At(after, id));
      ReplayOne(m, d);
      assert ApplyDelta(m, d) == n;
    }
  }

  lemma {:induction false} ChangesBlend(before: Vectors, after: Vectors, ids: seq<nat>)
    requires Distinct(ids)
    ensures Replay(before, Changes(before, after, ids)) == Blend(before, after, ids) && Follows(before, Changes(before, after, ids))
  {
    if ids == [] {
      assert Blend(before, after, ids) == before;
    } else {
      var n := |ids| - 1;
      var front, id := ids[..n], ids[n];
      ChangesBlend(before, after, front);
      BlendStep(before, after, front, id);
      assert ids == front + [id];
      ReplayConcat(before, Changes(before, after, front), Change(before, after, id));
    }
  }

  /** The touched ids of a commit, each listed once, cover everything that changed. */
  ghost predicate Covers(before: Vectors, after: Vectors, ids: seq<nat>) {
    Distinct(ids) && forall id: nat :: At(before, id) != At(after, id) ==> id in ids
  }

  /** In whatever order the touched ids are met, the log of a commit leads from the graph before to
      the graph after. */
  lemma CommitLog(before: Vectors, after: Vectors, ids: seq<nat>)
    requires Covers(before, after, ids)
    ensures Replay(before, Changes(before, after, ids)) == after && Follows(before, Changes(before, after, ids))
  {
    ChangesBlend(before, after, ids);
    var m := Blend(before, after, ids);
    forall id: nat ensures At(m, id) == At(after, id) { }
    assert m.Keys == after.Keys by { forall id: nat ensures id in m <==> id in after { assert At(m, id) == At(after, id); } }
  }

  // The protocol.

  datatype Phase = Building | Replaying

  datatype Rebuild = Rebuild(phase: Phase, snapshot: Vectors, built: Vectors, live: nat, batch: seq<Delta>, log: seq<Delta>, failed: bool)

  /** The committed vectors, the published index with its live count, the write transaction in
      progress and the rebuild in progress. */
  datatype State = State(committed: Vectors, index: Vectors, live: nat, writer: Option<Vectors>, rebuild: Option<Rebuild>)

  datatype Op =
    | Start
    | Build
    | Take
    | Step
    | Publish
    | BeginWrite
    | Commit(after: Vectors, ids: seq<nat>, fits: bool)
    | Rollback
    | Abandon

  /** The rebuild after a commit logged its changes; a log that no longer fits fails the rebuild. */
  function Logged(rebuild: Option<Rebuild>, log: seq<Delta>, fits: bool): Option<Rebuild> {
    if rebuild.None? || rebuild.value.failed then rebuild
    else if !fits then Some(rebuild.value.(failed := true))
    else Some(rebuild.value.(log := rebuild.value.log + log))
  }

  function Next(s: State, op: Op): State {
    match op
    case Start =>
      if s.rebuild.Some? then s else s.(rebuild := Some(Rebuild(Building, s.committed, map[], 0, [], [], false)))
    case Build =>
      if s.rebuild.None? || s.rebuild.value.phase != Building then s
      else s.(rebuild := Some(s.rebuild.value.(phase := Replaying, built := s.rebuild.value.snapshot, live := |s.rebuild.value.snapshot|)))
    case Take =>
      if s.rebuild.None? || s.rebuild.value.phase != Replaying || s.rebuild.value.failed || s.rebuild.value.batch != [] then s
      else s.(rebuild := Some(s.rebuild.value.(batch := s.rebuild.value.log, log := [])))
    case Step =>
      if s.rebuild.None? || s.rebuild.value.phase != Replaying || s.rebuild.value.batch == [] then s
      else
        var r := s.rebuild.value;
        s.(rebuild := Some(r.(built := ApplyDelta(r.built, r.batch[0]), live := CountDelta(r.live, r.batch[0]), batch := r.batch[1..])))
    case Publish =>
      if s.rebuild.None? || s.rebuild.value.phase != Replaying || s.rebuild.value.batch != [] then s
      else if s.writer.Some? || s.rebuild.value.failed || s.rebuild.value.log != [] then s
      else s.(index := s.rebuild.value.built, live := s.rebuild.value.live, rebuild := None)
    case BeginWrite => if s.writer.Some? then s else s.(writer := Some(s.committed))
    case Commit(after, ids, fits) =>
      if s.writer.None? then s
      else
        // The commit maintains the published index and its count change by change.
        var log := Changes(s.writer.value, after, ids);
        State(after, Replay(s.index, log), CountAll(s.live, log), None, Logged(s.rebuild, log, fits))
    case Rollback => s.(writer := None)
    case Abandon => s.(rebuild := None)
  }

  /** A commit touches what it changes, once each. */
  ghost predicate Allowed(s: State, op: Op) {
    op.Commit? && s.writer.Some? ==> Covers(s.writer.value, op.after, op.ids)
  }

  /** What is built, and what is still to be replayed, lead to the committed vectors. */
  ghost predicate RebuildOk(committed: Vectors, r: Rebuild) {
    var start, todo := if r.phase == Building then r.snapshot else r.built, r.batch + r.log;
    (r.phase == Building ==> r.batch == []) && (r.phase == Replaying ==> r.live == |r.built|)
    && (!r.failed ==> Replay(start, todo) == committed) && Follows(start, todo)
  }

  ghost predicate Valid(s: State) {
    && s.index == s.committed && s.live == |s.committed|
    && (s.writer.Some? ==> s.writer.value == s.committed)
    && (s.rebuild.Some? ==> RebuildOk(s.committed, s.rebuild.value))
  }

  lemma StepKeeps(s: State)
    requires Valid(s)
    ensures Valid(Next(s, Step))
  {
    if s.rebuild.Some? && s.rebuild.value.phase == Replaying && s.rebuild.value.batch != [] {
      var r := s.rebuild.value;
      var todo := r.batch + r.log;
      assert todo[0] == r.batch[0] && todo[1..] == r.batch[1..] + r.log;
      CountIsExact(r.built, r.batch[0]);
    }
  }

  lemma TakeKeeps(s: State)
    requires Valid(s)
    ensures Valid(Next(s, Take))
  {
    if s.rebuild.Some? {
      var r := s.rebuild.value;
      assert [] + r.log == r.log && r.log + [] == r.log;
    }
  }

  lemma LoggedOk(committed: Vectors, r: Rebuild, log: seq<Delta>)
    requires RebuildOk(committed, r) && !r.failed && Follows(committed, log)
    ensures RebuildOk(Replay(committed, log), r.(log := r.log + log))
  {
    LogExtends(if r.phase == Building then r.snapshot else r.built, r.batch, r.log, log);
  }

  lemma LoggedKeeps(committed: Vectors, rebuild: Option<Rebuild>, log: seq<Delta>, fits: bool)
    requires Follows(committed, log) && (rebuild.Some? ==> RebuildOk(committed, rebuild.value))
    ensures var r := Logged(rebuild, log, fits); r.Some? ==> RebuildOk(Replay(committed, log), r.value)
  {
    if rebuild.Some? && !rebuild.value.failed {
      LoggedOk(committed, rebuild.value, log);
    }
  }

  lemma CommitKeeps(s: State, after: Vectors, ids: seq<nat>, fits: bool)
    requires Valid(s) && Allowed(s, Commit(after, ids, fits))
    ensures Valid(Next(s, Commit(after, ids, fits)))
  {
    if s.writer.Some? {
      var log := Changes(s.committed, after, ids);
      CommitLog(s.committed, after, ids);
      CountAllExact(s.index, log);
      LoggedKeeps(s.committed, s.rebuild, log, fits);
    }
  }

  lemma LogExtends(start: Vectors, batch: seq<Delta>, log: seq<Delta>, more: seq<Delta>)
    requires Follows(start, batch + log) && Follows(Replay(start, batch + log), more)
    ensures Follows(start, batch + (log + more)) && Replay(start, batch + (log + more)) == Replay(Replay(start, batch + log), more)
  {
    ReplayConcat(start, batch + log, more);
    Associates(batch, log, more);
  }

  lemma Associates(a: seq<Delta>, b: seq<Delta>, c: seq<Delta>)
    ensures (a + b) + c == a + (b + c)
  {
  }

  lemma NextKeeps(s: State, op: Op)
    requires Valid(s) && Allowed(s, op)
    ensures Valid(Next(s, op))
  {
    match op
    case Step => StepKeeps(s);
    case Take => TakeKeeps(s);
    case Commit(after, ids, fits) => CommitKeeps(s, after, ids, fits);
    case Start =>
    case Build =>
    case Publish =>
    case BeginWrite =>
    case Rollback =>
    case Abandon =>
  }

  /** An interleaving of commits, building, replay and publication. */
  ghost predicate Reaches(s: State, ops: seq<Op>, t: State)
    decreases |ops|
  {
    if ops == [] then t == s else Allowed(s, ops[0]) && Reaches(Next(s, ops[0]), ops[1..], t)
  }

  function Opened(vectors: Vectors): State { State(vectors, vectors, |vectors|, None, None) }

  /** For any interleaving, the published index holds exactly the vectors of the committed graph,
      and the live count matches. */
  lemma {:induction false} IndexIsExact(s: State, ops: seq<Op>, t: State)
    requires Valid(s) && Reaches(s, ops, t)
    ensures Valid(t) && t.index == t.committed && t.live == |t.committed|
    decreases |ops|
  {
    if ops != [] {
      NextKeeps(s, ops[0]);
      IndexIsExact(Next(s, ops[0]), ops[1..], t);
    }
  }

  /** What a publication installs was built and replayed: no commit since the snapshot is missing
      or applied twice. */
  lemma PublishedIsReplayed(s: State)
    requires Valid(s) && Next(s, Publish) != s
    ensures s.rebuild.Some? && s.rebuild.value.built == s.committed && s.rebuild.value.live == |s.committed|
    ensures Next(s, Publish).index == s.rebuild.value.built && Next(s, Publish).rebuild == None
  {
  }

  // The steps as they run.

  lemma ChangesSnoc(before: Vectors, after: Vectors, ids: seq<nat>, n: nat)
    requires n < |ids|
    ensures Changes(before, after, ids[..n + 1]) == Changes(before, after, ids[..n]) + Change(before, after, ids[n])
  {
    assert ids[..n + 1][..n] == ids[..n];
  }

  lemma {:induction false} ChangesConcat(before: Vectors, after: Vectors, a: seq<nat>, b: seq<nat>)
    ensures Changes(before, after, a + b) == Changes(before, after, a) + Changes(before, after, b)
    decreases |b|
  {
    if b == [] {
      assert a + b == a;
    } else {
      var n := |b| - 1;
      ChangesConcat(before, after, a, b[..n]);
      assert (a + b)[..|a + b| - 1] == a + b[..n];
      Associates(Changes(before, after, a), Changes(before, after, b[..n]), Change(before, after, b[n]));
    }
  }

  method AppendUpserts(before: Vectors, after: Vectors, upserts: seq<nat>) returns (log: seq<Delta>)
    ensures log == Changes(before, after, upserts)
  {
    log := [];
    for i := 0 to |upserts|
      invariant log == Changes(before, after, upserts[..i])
    {
      ChangesSnoc(before, after, upserts, i);
      var was, now := At(before, upserts[i]), At(after, upserts[i]);
      if was != now {
        log := log + [Delta(upserts[i], was, now)];
      }
    }
    assert upserts[..|upserts|] == upserts;
  }

  method AppendDeletes(before: Vectors, ghost after: Vectors, deletes: seq<nat>) returns (log: seq<Delta>)
    requires forall i :: 0 <= i < |deletes| ==> deletes[i] !in after
    ensures log == Changes(before, after, deletes)
  {
    log := [];
    for i := 0 to |deletes|
      invariant log == Changes(before, after, deletes[..i])
    {
      ChangesSnoc(before, after, deletes, i);
      if deletes[i] in before {
        log := log + [Delta(deletes[i], Some(before[deletes[i]]), None)];
      }
    }
    assert deletes[..|deletes|] == deletes;
  }

  /** Log the vector changes of a commit, upserted ids first. */
  method AppendChanges(before: Vectors, after: Vectors, upserts: seq<nat>, deletes: seq<nat>) returns (log: seq<Delta>)
    requires forall i :: 0 <= i < |deletes| ==> deletes[i] !in after
    ensures log == Changes(before, after, upserts + deletes)
  {
    log := AppendUpserts(before, after, upserts);
    var more := AppendDeletes(before, after, deletes);
    log := log + more;
    ChangesConcat(before, after, upserts, deletes);
  }

  /** Carry out a whole batch of changes on an index and its live count. */
  method ReplayBatch(built: Vectors, live: nat, batch: seq<Delta>) returns (after: Vectors, count: nat)
    ensures after == Replay(built, batch) && count == CountAll(live, batch)
  {
    after, count := built, live;
    var rest := batch;
    while rest != []
      invariant Replay(after, rest) == Replay(built, batch) && CountAll(count, rest) == CountAll(live, batch)
      decreases |rest|
    {
      count := CountDelta(count, rest[0]);
      after := ApplyDelta(after, rest[0]);
      rest := rest[1..];
    }
  }

  /** The database's part of the protocol, under its mutex. */
  class Database {

    var committed: Vectors
    var index: Vectors
    var live: nat
    var writer: Option<Vectors>
    var rebuild: Option<Rebuild>

    ghost function View(): State reads this { State(committed, index, live, writer, rebuild) }

    constructor (vectors: Vectors)
      ensures View() == Opened(vectors) && Valid(View())
    {
      committed, index, live, writer, rebuild := vectors, vectors, |vectors|, None, None;
    }

    method StartRebuild() returns (started: bool)
      requires Valid(View())
      modifies this
      ensures Valid(View()) && View() == Next(old(View()), Start) && started == old(rebuild.None?)
    {
      started := rebuild.None?;
      if started {
        rebuild := Some(Rebuild(Building, committed, map[], 0, [], [], false));
      }
    }

    /** Hand the changes of a commit to the rebuild in progress; a log grown too long fails it. */
    method LogChanges(log: seq<Delta>, fits: bool)
      modifies this`rebuild
      ensures rebuild == Logged(old(rebuild), log, fits)
    {
      if rebuild.Some? && !rebuild.value.failed {
        if fits {
          rebuild := Some(rebuild.value.(log := rebuild.value.log + log));
        } else {
          rebuild := Some(rebuild.value.(failed := true));
        }
      }
    }

    /** Publish a commit and, atomically with it, log its changes for the rebuild in progress. */
    method CommitWrite(after: Vectors, upserts: seq<nat>, deletes: seq<nat>, fits: bool)
      requires Valid(View()) && writer.Some? && Covers(writer.value, after, upserts + deletes)
      requires forall i :: 0 <= i < |deletes| ==> deletes[i] !in after
      modifies this
      ensures Valid(View()) && View() == Next(old(View()), Commit(after, upserts + deletes, fits))
    {
      CommitKeeps(View(), after, upserts + deletes, fits);
      var log := AppendChanges(writer.value, after, upserts, deletes);
      index, live := ReplayBatch(index, live, log);
      committed, writer := after, None;
      LogChanges(log, fits);
    }

    /** Replay what was logged since the last round. */
    method ReplayPending()
      requires Valid(View()) && rebuild.Some? && rebuild.value.phase == Replaying && !rebuild.value.failed && rebuild.value.batch == []
      modifies this
      ensures Valid(View()) && rebuild.Some? && rebuild.value.batch == [] && rebuild.value.log == []
      ensures committed == old(committed) && index == old(index) && writer == old(writer) && rebuild.value.built == committed
    {
      TakeKeeps(View());
      var r := rebuild.value;
      assert [] + r.log == r.log;
      CountAllExact(r.built, r.log);
      var built, count := ReplayBatch(r.built, r.live, r.log);
      rebuild := Some(r.(built := built, live := count, log := []));
    }

    /** Install the rebuilt index, unless a writer is active or more changes were logged. */
    method TryPublish() returns (published: bool)
      requires Valid(View()) && rebuild.Some? && rebuild.value.phase == Replaying && rebuild.value.batch == []
      modifies this
      ensures Valid(View()) && View() == Next(old(View()), Publish)
      ensures published <==> old(writer.None? && !rebuild.value.failed && rebuild.value.log == [])
    {
      NextKeeps(View(), Publish);
      published := writer.None? && !rebuild.value.failed && rebuild.value.log == [];
      if published {
        index, live, rebuild := rebuild.value.built, rebuild.value.live, None;
      }
    }
  }
}
