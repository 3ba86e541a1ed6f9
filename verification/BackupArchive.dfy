/** The backup archive of a page-backed database: bases and single-commit segments, published in
    three durable steps, reopened after a crash and selected by time. */
module BackupArchive {

  import opened Optional
  import opened Orders

  /** The source's ancestry: every commit extends the one before. Digests are injective, so they
      are modelled by what they digest. */
  datatype History = Origin(database: nat) | Extended(previous: History, frame: nat) | Reconfigured(previous: History, frame: nat)

  /** Commit c has histories[c]; the outbox keeps the frames of some commits. */
  datatype Source = Source(histories: seq<History>, outbox: set<nat>, pending: bool)

  ghost predicate SourceOk(source: Source) {
    && source.histories != []
    && (forall c :: c in source.outbox ==> c < |source.histories|)
  }

  function Current(source: Source): nat
    requires source.histories != []
  {
    |source.histories| - 1
  }

  datatype Digest = CheckpointDigest(commit: nat, history: History) | FrameDigest(frame: nat)

  datatype Entry =
    | Base(commit: nat, captured: int, history: History, gapStart: Option<int>)
    | Segment(commit: nat, captured: int, history: History, frame: nat, start: nat, previous: Digest)

  function DigestOf(e: Entry): Digest {
    match e
    case Base(commit, _, history, _) => CheckpointDigest(commit, history)
    case Segment(_, _, _, frame, _, _) => FrameDigest(frame)
  }

  /** What is on disk: proofs of source history, linked entries and the head anchor. */
  datatype Disk = Disk(entries: seq<Entry>, proofs: set<Entry>, anchor: Option<Entry>)

  /** What an open archive knows. `loaded` is the directory as it was when opened. */
  datatype Memory = Memory(head: Option<Entry>, last: Option<int>, ready: bool, loaded: seq<Entry>)

  datatype State = State(source: Source, disk: Disk, memory: Option<Memory>)

  const MAX_TIME: int := 0x7fff_ffff_ffff_ffff

  /** The time of a capture: now, but not before the epoch and after every earlier capture. */
  function CaptureTime(last: Option<int>, now: int): (t: Option<int>)
    ensures t.Some? ==> 0 <= t.value <= MAX_TIME && (last.Some? ==> last.value < t.value)
    ensures t.Some? && now >= 0 && (last.None? || last.value < now) ==> t.value == now
  {
    var floor := if now < 0 then 0 else now;
    var captured := if last.Some? && floor <= last.value then last.value + 1 else floor;
    if captured > MAX_TIME then None else Some(captured)
  }

  datatype Plan = Publish(entry: Entry) | Reanchor | Refuse

  function PublishBase(source: Source, m: Memory, now: int): Plan
    requires source.histories != []
  {
    var captured := CaptureTime(m.last, now);
    if captured.None? then Refuse
    else Publish(Base(Current(source), captured.value, source.histories[Current(source)], if m.head.Some? then Some(m.head.value.captured) else None))
  }

  function PublishSegment(source: Source, m: Memory, now: int, frame: nat, history: History): Plan
    requires source.histories != [] && m.head.Some?
  {
    var captured := CaptureTime(m.last, now);
    if captured.None? then Refuse
    else Publish(Segment(Current(source), captured.value, history, frame, Current(source), DigestOf(m.head.value)))
  }

  function FrameOf(h: History): nat {
    match h
    case Origin(_) => 0
    case Extended(_, frame) => frame
    case Reconfigured(_, frame) => frame
  }

  /** The head is a base for this very commit, read when the archive was opened. */
  predicate HasMatchingBase(source: Source, m: Memory)
    requires source.histories != []
  {
    && m.head.Some? && m.head.value.commit == Current(source) && m.head.value.history == source.histories[Current(source)]
    && m.head.value in m.loaded && m.head.value.Base?
  }

  /** What a capture of the current commit does. */
  function CapturePlan(source: Source, m: Memory, now: int): Plan
    requires source.histories != []
  {
    var commit := Current(source);
    var history := source.histories[commit];
    if m.head.None? then PublishBase(source, m, now)
    else
      var head := m.head.value;
      if commit < head.commit then Refuse
      else if source.histories[head.commit] != head.history then Refuse
      else if source.pending then
        if HasMatchingBase(source, m) then Reanchor
        else if head.commit == commit then Refuse
        else PublishBase(source, m, now)
      else if commit == head.commit then (if history != head.history then Refuse else Reanchor)
      else if commit != head.commit + 1 || commit !in source.outbox then PublishBase(source, m, now)
      else if Extended(head.history, FrameOf(history)) != history then Refuse
      else PublishSegment(source, m, now, FrameOf(history), history)
  }

  /** How far a publication got before a crash. */
  datatype Reached = Nothing | Proved | Linked | Anchored

  /** The anchor only ever moves to a later commit. */
  predicate MayAnchor(disk: Disk, e: Entry) { disk.anchor.None? || disk.anchor.value.commit < e.commit }

  function Published(disk: Disk, e: Entry, reached: Reached): Disk {
    if reached == Nothing then disk
    else
      var proved := disk.(proofs := disk.proofs + {e});
      if reached == Proved then proved
      else
        var linked := proved.(entries := disk.entries + [e]);
        if reached == Linked || !MayAnchor(disk, e) then linked else linked.(anchor := Some(e))
  }

  function Reanchored(disk: Disk, head: Entry): Disk {
    if disk.anchor == Some(head) || !MayAnchor(disk, head) then disk else disk.(anchor := Some(head))
  }

  datatype Op =
    | Commit(frame: nat)
    | CommitWithoutArchive(frame: nat, reconfigures: bool)
    | Capture(now: int, reached: Reached)
    | ClearPending
    | Crash
    | Reopen(listing: seq<Entry>)

  // Opening.

  predicate EntryLe(x: Entry, y: Entry) {
    x.commit < y.commit || (x.commit == y.commit && x.captured <= y.captured)
  }

  /** Commit ids strictly increase. */
  predicate OrderOk(entries: seq<Entry>) {
    forall i :: 0 < i < |entries| ==> entries[i - 1].commit < entries[i].commit
  }

  /** The anchor names an entry; without an anchor there are no segments. */
  predicate AnchorOk(entries: seq<Entry>, anchor: Option<Entry>) {
    if anchor.Some? then anchor.value in entries else forall i :: 0 <= i < |entries| ==> entries[i].Base?
  }

  predicate IsParent(e: Entry, parent: Entry)
    requires e.Segment?
  {
    parent.commit + 1 == e.start && DigestOf(parent) == e.previous
  }

  /** The entry with this commit and digest. */
  function Lookup(entries: seq<Entry>, commit: nat, digest: Digest): (r: Option<Entry>)
    ensures r.Some? ==> r.value in entries && r.value.commit == commit && DigestOf(r.value) == digest
    ensures r.None? ==> forall i :: 0 <= i < |entries| ==> entries[i].commit != commit || DigestOf(entries[i]) != digest
  {
    if entries == [] then None
    else
      var last := entries[|entries| - 1];
      if last.commit == commit && DigestOf(last) == digest then Some(last) else Lookup(entries[..|entries| - 1], commit, digest)
  }

  /** The entries from a base to this one, each the parent of the next. A segment starts after
      commit zero and not after its own commit, so the walk ends. */
  function ChainOf(entries: seq<Entry>, e: Entry): Option<seq<Entry>>
    decreases e.commit
  {
    if e.Base? then Some([e])
    else if e.start == 0 || e.start > e.commit then None
    else
      var parent := Lookup(entries, e.start - 1, e.previous);
      if parent.None? then None
      else
        var chain := ChainOf(entries, parent.value);
        if chain.None? then None else Some(chain.value + [e])
  }

  /** The history that restoring a chain arrives at. */
  function Replay(chain: seq<Entry>): History
    requires chain != []
  {
    if |chain| == 1 then chain[0].history
    else
      var last := chain[|chain| - 1];
      if last.Segment? then Extended(Replay(chain[..|chain| - 1]), last.frame) else last.history
  }

  function Later(x: Option<int>, y: int): Option<int> { if x.None? || y > x.value then Some(y) else x }

  /** The latest capture time. */
  function LastTime(entries: seq<Entry>): Option<int> {
    if entries == [] then None else Later(LastTime(entries[..|entries| - 1]), entries[|entries| - 1].captured)
  }

  function Higher(x: Option<Entry>, y: Entry): Option<Entry> {
    if x.None? || y.commit > x.value.commit || (y.commit == x.value.commit && y.captured > x.value.captured) then Some(y) else x
  }

  /** The entry with the highest commit. */
  function TopEntry(entries: seq<Entry>): Option<Entry> {
    if entries == [] then None else Higher(TopEntry(entries[..|entries| - 1]), entries[|entries| - 1])
  }

  /** Everything an archive checks before it opens. */
  predicate CanOpen(entries: seq<Entry>, proofs: set<Entry>, anchor: Option<Entry>) {
    && OrderOk(entries) && AnchorOk(entries, anchor)
    && (TopEntry(entries).Some? ==>
          var chain := ChainOf(entries, TopEntry(entries).value);
          chain.Some? && forall i :: 0 <= i < |chain.value| ==> chain.value[i] in proofs)
  }

  function OpenMemory(entries: seq<Entry>): Memory { Memory(TopEntry(entries), LastTime(entries), false, entries) }

  /** A commit while the archive is open and ready; the frame of the commit before is dropped. */
  function AfterCommit(s: State, frame: nat): State
    requires s.source.histories != []
  {
    var source, commit := s.source, Current(s.source);
    if s.memory.None? || !s.memory.value.ready then s
    else s.(source := source.(histories := source.histories + [Extended(source.histories[commit], frame)], outbox := (source.outbox - {commit}) + {commit + 1}))
  }

  /** A commit without an archive keeps no frame; it may change the vector configuration, which
      asks for a new base. */
  function AfterBareCommit(s: State, frame: nat, reconfigures: bool): State
    requires s.source.histories != []
  {
    var source, commit := s.source, Current(s.source);
    if s.memory.Some? then s
    else
      var history := if reconfigures then Reconfigured(source.histories[commit], frame) else Extended(source.histories[commit], frame);
      s.(source := Source(source.histories + [history], source.outbox - {commit}, source.pending || reconfigures))
  }

  function AfterCapture(s: State, m: Memory, plan: Plan, reached: Reached): State {
    match plan
    case Refuse => s
    case Reanchor =>
      if reached != Anchored || m.head.None? then s.(memory := None)
      else s.(disk := Reanchored(s.disk, m.head.value), memory := Some(m.(ready := true)))
    case Publish(e) =>
      s.(disk := Published(s.disk, e, reached),
         memory := if reached != Anchored || !MayAnchor(s.disk, e) then None else Some(m.(head := Some(e), last := Some(e.captured), ready := true)))
  }

  function AfterReopen(s: State, entries: seq<Entry>): State {
    if CanOpen(entries, s.disk.proofs, s.disk.anchor) then s.(memory := Some(OpenMemory(entries))) else s
  }

  function Next(s: State, op: Op): State
    requires s.source.histories != []
  {
    match op
    case Commit(frame) => AfterCommit(s, frame)
    case CommitWithoutArchive(frame, reconfigures) => AfterBareCommit(s, frame, reconfigures)
    case Capture(now, reached) =>
      if s.memory.None? then s else AfterCapture(s, s.memory.value, CapturePlan(s.source, s.memory.value, now), reached)
    case ClearPending => if s.memory.Some? && s.memory.value.ready then s.(source := s.source.(pending := false)) else s
    case Crash => s.(memory := None)
    case Reopen(listing) =>
      if s.memory.Some? || multiset(listing) != multiset(s.disk.entries) then s else AfterReopen(s, SortBy(EntryLe, listing))
  }

  // What is kept.

  /** The entry tells the truth about the source. */
  ghost predicate Recorded(source: Source, e: Entry) {
    e.commit < |source.histories| && e.history == source.histories[e.commit] && 0 <= e.captured <= MAX_TIME
  }

  /** Commit ids and capture times strictly increase together. */
  ghost predicate Increasing(entries: seq<Entry>) {
    forall i, j :: 0 <= i < j < |entries| ==> entries[i].commit < entries[j].commit && entries[i].captured < entries[j].captured
  }

  /** Entry i continues the entry before it: a segment by one commit, a base after a recorded gap. */
  ghost predicate Continues(entries: seq<Entry>, i: nat)
    requires i < |entries|
  {
    match entries[i]
    case Segment(commit, _, history, frame, start, previous) =>
      i > 0 && start == commit && IsParent(entries[i], entries[i - 1]) && history == Extended(entries[i - 1].history, frame)
    case Base(_, _, _, gapStart) => gapStart == if i == 0 then None else Some(entries[i - 1].captured)
  }

  ghost predicate EntriesOk(source: Source, entries: seq<Entry>) {
    && Increasing(entries)
    && (forall i :: 0 <= i < |entries| ==> Recorded(source, entries[i]))
    && (forall i {:trigger Continues(entries, i)} :: 0 <= i < |entries| ==> Continues(entries, i))
  }

  /** Until the first anchor is written, no segment can be published. */
  ghost predicate AnchorKept(source: Source, disk: Disk) {
    && AnchorOk(disk.entries, disk.anchor)
    && (disk.anchor.None? && disk.entries != [] ==> disk.entries[|disk.entries| - 1].commit + 1 !in source.outbox)
  }

  ghost predicate DiskOk(source: Source, disk: Disk) {
    && EntriesOk(source, disk.entries)
    && (forall i :: 0 <= i < |disk.entries| ==> disk.entries[i] in disk.proofs)
    && AnchorKept(source, disk)
  }

  function LastEntry(entries: seq<Entry>): Option<Entry> {
    if entries == [] then None else Some(entries[|entries| - 1])
  }

  ghost predicate MemoryOk(disk: Disk, m: Memory) {
    && m.head == LastEntry(disk.entries)
    && m.last == (if m.head.None? then None else Some(m.head.value.captured))
    && (m.ready ==> m.head.Some? && disk.anchor == m.head)
  }

  ghost predicate Valid(s: State) {
    SourceOk(s.source) && DiskOk(s.source, s.disk) && (s.memory.Some? ==> MemoryOk(s.disk, s.memory.value))
  }

  // Captures.

  lemma PublishExtends(source: Source, entries: seq<Entry>, e: Entry)
    requires EntriesOk(source, entries) && Recorded(source, e)
    requires entries != [] ==> entries[|entries| - 1].commit < e.commit && entries[|entries| - 1].captured < e.captured
    requires Continues(entries + [e], |entries|)
    ensures EntriesOk(source, entries + [e])
  {
    var more := entries + [e];
    forall i | 0 <= i < |more| ensures Recorded(source, more[i]) { if i < |entries| { assert more[i] == entries[i]; } }
    forall i | 0 <= i < |more| ensures Continues(more, i) {
      if i < |entries| {
        assert Continues(entries, i);
        ContinuesInMore(entries, e, i);
      }
    }
    IncreasingMore(entries, e);
  }

  lemma ContinuesInMore(entries: seq<Entry>, e: Entry, i: nat)
    requires i < |entries| && Continues(entries, i)
    ensures Continues(entries + [e], i)
  {
    assert (entries + [e])[i] == entries[i];
    if i > 0 { assert (entries + [e])[i - 1] == entries[i - 1]; }
  }

  lemma IncreasingMore(entries: seq<Entry>, e: Entry)
    requires Increasing(entries)
    requires entries != [] ==> entries[|entries| - 1].commit < e.commit && entries[|entries| - 1].captured < e.captured
    ensures Increasing(entries + [e])
  {
  }

  /** A published entry continues the archive and tells the truth about the source. */
  lemma PlannedEntry(s: State, now: int)
    requires Valid(s) && s.memory.Some? && CapturePlan(s.source, s.memory.value, now).Publish?
    ensures var e := CapturePlan(s.source, s.memory.value, now).entry;
            && Recorded(s.source, e) && Continues(s.disk.entries + [e], |s.disk.entries|)
            && e.commit == Current(s.source)
            && (s.disk.entries != [] ==> s.disk.entries[|s.disk.entries| - 1].commit < e.commit && s.disk.entries[|s.disk.entries| - 1].captured < e.captured)
            && (e.Segment? ==> s.disk.anchor.Some?)
            && MayAnchor(s.disk, e)
  {
    var entries := s.disk.entries;
    if entries != [] {
      assert Recorded(s.source, entries[|entries| - 1]);
      if s.disk.anchor.Some? {
        var k :| 0 <= k < |entries| && entries[k] == s.disk.anchor.value;
      }
    }
  }

  lemma ProvedDisk(source: Source, disk: Disk, e: Entry)
    requires DiskOk(source, disk)
    ensures DiskOk(source, disk.(proofs := disk.proofs + {e}))
  {
  }

  lemma LinkedDisk(source: Source, disk: Disk, e: Entry)
    requires DiskOk(source, disk) && EntriesOk(source, disk.entries + [e]) && e in disk.proofs
    requires (e.Segment? ==> disk.anchor.Some?) && e.commit + 1 !in source.outbox
    ensures DiskOk(source, disk.(entries := disk.entries + [e]))
  {
    if disk.anchor.Some? { assert disk.anchor.value in disk.entries; }
  }

  lemma AnchoredDisk(source: Source, disk: Disk, e: Entry)
    requires DiskOk(source, disk) && e in disk.entries
    ensures DiskOk(source, disk.(anchor := Some(e)))
  {
  }

  lemma PublishedDisk(source: Source, disk: Disk, e: Entry, reached: Reached)
    requires DiskOk(source, disk) && EntriesOk(source, disk.entries + [e]) && MayAnchor(disk, e)
    requires (e.Segment? ==> disk.anchor.Some?) && e.commit + 1 !in source.outbox
    ensures DiskOk(source, Published(disk, e, reached))
  {
    var proved := disk.(proofs := disk.proofs + {e});
    var linked := proved.(entries := disk.entries + [e]);
    ProvedDisk(source, disk, e);
    LinkedDisk(source, proved, e);
    AnchoredDisk(source, linked, e);
  }

  lemma PublishedMemory(s: State, m: Memory, e: Entry, reached: Reached)
    requires MayAnchor(s.disk, e)
    ensures var t := AfterCapture(s, m, Publish(e), reached);
            t.disk == Published(s.disk, e, reached) && t.source == s.source && (t.memory.Some? ==> MemoryOk(t.disk, t.memory.value))
  {
  }

  lemma PublishKeeps(s: State, now: int, reached: Reached)
    requires Valid(s) && s.memory.Some? && CapturePlan(s.source, s.memory.value, now).Publish?
    ensures Valid(AfterCapture(s, s.memory.value, CapturePlan(s.source, s.memory.value, now), reached))
  {
    var e := CapturePlan(s.source, s.memory.value, now).entry;
    PlannedEntry(s, now);
    PublishExtends(s.source, s.disk.entries, e);
    PublishedDisk(s.source, s.disk, e, reached);
    PublishedMemory(s, s.memory.value, e, reached);
  }

  lemma CaptureKeeps(s: State, now: int, reached: Reached)
    requires Valid(s) && s.memory.Some?
    ensures Valid(AfterCapture(s, s.memory.value, CapturePlan(s.source, s.memory.value, now), reached))
  {
    var m, plan := s.memory.value, CapturePlan(s.source, s.memory.value, now);
    match plan
    case Publish(e) => PublishKeeps(s, now, reached);
    case Reanchor => if m.head.Some? { ReanchorKeeps(s, m.head.value); }
    case Refuse =>
  }

  lemma ReanchorKeeps(s: State, head: Entry)
    requires Valid(s) && LastEntry(s.disk.entries) == Some(head)
    ensures DiskOk(s.source, Reanchored(s.disk, head)) && Reanchored(s.disk, head).anchor == Some(head)
  {
    var entries := s.disk.entries;
    if s.disk.anchor.Some? {
      var k :| 0 <= k < |entries| && entries[k] == s.disk.anchor.value;
    }
  }

  // Commits.

  lemma CommitKeeps(s: State, op: Op)
    requires Valid(s) && (op.Commit? || op.CommitWithoutArchive?)
    ensures Valid(Next(s, op))
  {
    var t := Next(s, op);
    forall i | 0 <= i < |s.disk.entries| ensures Recorded(t.source, s.disk.entries[i]) { assert Recorded(s.source, s.disk.entries[i]); }
  }

  // Reopening.

  lemma {:induction false} TopIsLast(entries: seq<Entry>)
    requires Increasing(entries)
    ensures TopEntry(entries) == LastEntry(entries)
    ensures LastTime(entries) == if entries == [] then None else Some(entries[|entries| - 1].captured)
  {
    if entries != [] { TopIsLast(entries[..|entries| - 1]); }
  }

  lemma LookupFinds(entries: seq<Entry>, i: nat)
    requires Increasing(entries) && i < |entries|
    ensures Lookup(entries, entries[i].commit, DigestOf(entries[i])) == Some(entries[i])
  {
    var r := Lookup(entries, entries[i].commit, DigestOf(entries[i]));
    assert r.Some?;
    var j :| 0 <= j < |entries| && entries[j] == r.value;
  }

  /** A chain to a base: contiguous, linked by digests, and replaying it arrives at the source's
      own history of the commit. */
  ghost predicate GoodChain(source: Source, entries: seq<Entry>, e: Entry, chain: seq<Entry>) {
    && chain != [] && chain[0].Base? && chain[|chain| - 1] == e
    && (forall k :: 0 <= k < |chain| ==> chain[k] in entries)
    && (forall k :: 0 < k < |chain| ==> FollowsOn(chain[k - 1], chain[k]))
    && e.commit < |source.histories| && Replay(chain) == source.histories[e.commit]
  }

  lemma ChainGrows(source: Source, entries: seq<Entry>, parent: Entry, front: seq<Entry>, e: Entry)
    requires GoodChain(source, entries, parent, front) && FollowsOn(parent, e) && e in entries && Recorded(source, e)
    requires e.history == Extended(parent.history, e.frame) && parent.history == source.histories[parent.commit]
    ensures GoodChain(source, entries, e, front + [e])
  {
    var chain := front + [e];
    assert chain[..|front|] == front;
    forall k | 0 < k < |chain| ensures FollowsOn(chain[k - 1], chain[k]) {
      if k < |front| { assert FollowsOn(front[k - 1], front[k]); }
    }
  }

  /** Every entry has a good chain. */
  lemma {:induction false} ChainExists(source: Source, entries: seq<Entry>, i: nat) returns (chain: seq<Entry>)
    requires EntriesOk(source, entries) && i < |entries|
    ensures ChainOf(entries, entries[i]) == Some(chain) && GoodChain(source, entries, entries[i], chain)
    decreases i
  {
    if entries[i].Segment? {
      ParentOf(source, entries, i);
      var front := ChainExists(source, entries, i - 1);
      chain := front + [entries[i]];
      ChainOfSegment(entries, i, front);
      ChainGrows(source, entries, entries[i - 1], front, entries[i]);
    } else {
      chain := [entries[i]];
      BaseChain(source, entries, i);
    }
  }

  lemma BaseChain(source: Source, entries: seq<Entry>, i: nat)
    requires EntriesOk(source, entries) && i < |entries| && entries[i].Base?
    ensures GoodChain(source, entries, entries[i], [entries[i]])
  {
    assert Recorded(source, entries[i]);
  }

  /** The parent of a segment is the entry before it. */
  lemma ParentOf(source: Source, entries: seq<Entry>, i: nat)
    requires EntriesOk(source, entries) && i < |entries| && entries[i].Segment?
    ensures i > 0 && FollowsOn(entries[i - 1], entries[i]) && Recorded(source, entries[i])
    ensures entries[i].history == Extended(entries[i - 1].history, entries[i].frame)
    ensures entries[i - 1].commit < |source.histories| && entries[i - 1].history == source.histories[entries[i - 1].commit]
  {
    assert Continues(entries, i);
    assert Recorded(source, entries[i - 1]);
  }

  lemma ChainOfSegment(entries: seq<Entry>, i: nat, front: seq<Entry>)
    requires Increasing(entries) && 0 < i < |entries| && FollowsOn(entries[i - 1], entries[i]) && ChainOf(entries, entries[i - 1]) == Some(front)
    ensures ChainOf(entries, entries[i]) == Some(front + [entries[i]])
  {
    LookupFinds(entries, i - 1);
  }

  /** The next entry of a chain: the following commit, linked by the digest of its parent. */
  predicate FollowsOn(parent: Entry, e: Entry) {
    e.Segment? && e.start == e.commit == parent.commit + 1 && e.previous == DigestOf(parent)
  }

  lemma EntriesAreOrdered()
    ensures TotalPreorder(EntryLe)
  {
    forall x, y, z ensures (EntryLe(x, y) || EntryLe(y, x)) && (EntryLe(x, y) && EntryLe(y, z) ==> EntryLe(x, z)) { }
  }

  /** Whatever order the directory is read in, sorting gives the published order. */
  lemma ListingSorts(entries: seq<Entry>, listing: seq<Entry>)
    requires Increasing(entries) && multiset(listing) == multiset(entries)
    ensures SortBy(EntryLe, listing) == entries
  {
    EntriesAreOrdered();
    assert Sorted(EntryLe, entries);
    forall x, y | x in multiset(listing) && y in multiset(listing) && EntryLe(x, y) && EntryLe(y, x) ensures x == y {
      assert x in multiset(entries) && y in multiset(entries);
      var i :| 0 <= i < |entries| && entries[i] == x;
      var j :| 0 <= j < |entries| && entries[j] == y;
    }
    SortedIsSortBy(EntryLe, entries, listing);
  }

  lemma ArchiveOpens(source: Source, disk: Disk)
    requires DiskOk(source, disk)
    ensures CanOpen(disk.entries, disk.proofs, disk.anchor)
  {
    var entries := disk.entries;
    TopIsLast(entries);
    if entries != [] {
      var i := |entries| - 1;
      var chain := ChainExists(source, entries, i);
      forall k | 0 <= k < |chain| ensures chain[k] in disk.proofs { assert chain[k] in entries; }
    }
  }

  /** Reopening after any crash succeeds, at the highest commit archived. */
  lemma ReopenSucceeds(s: State, listing: seq<Entry>)
    requires Valid(s) && s.memory.None? && multiset(listing) == multiset(s.disk.entries)
    ensures Next(s, Reopen(listing)).memory == Some(OpenMemory(s.disk.entries)) && Valid(Next(s, Reopen(listing)))
    ensures OpenMemory(s.disk.entries).head == LastEntry(s.disk.entries)
  {
    ListingSorts(s.disk.entries, listing);
    ArchiveOpens(s.source, s.disk);
    TopIsLast(s.disk.entries);
  }

  lemma NextKeeps(s: State, op: Op)
    requires Valid(s)
    ensures Valid(Next(s, op)) && Next(s, op).source.histories != []
  {
    match op
    case Commit(_) => CommitKeeps(s, op);
    case CommitWithoutArchive(_, _) => CommitKeeps(s, op);
    case Capture(now, reached) => if s.memory.Some? { CaptureKeeps(s, now, reached); }
    case ClearPending =>
    case Crash =>
    case Reopen(listing) => if s.memory.None? && multiset(listing) == multiset(s.disk.entries) { ReopenSucceeds(s, listing); }
  }

  /** A new database with an empty archive. */
  function Created(database: nat): State {
    State(Source([Origin(database)], {}, false), Disk([], {}, None), None)
  }

  ghost predicate Reaches(s: State, ops: seq<Op>, t: State)
    requires s.source.histories != []
    decreases |ops|
  {
    if ops == [] then t == s
    else Next(s, ops[0]).source.histories != [] && Reaches(Next(s, ops[0]), ops[1..], t)
  }

  /** Over every run of commits, captures, crashes between their steps and reopenings. */
  lemma {:induction false} RunKeeps(s: State, ops: seq<Op>, t: State)
    requires Valid(s) && Reaches(s, ops, t)
    ensures Valid(t)
    decreases |ops|
  {
    if ops != [] {
      NextKeeps(s, ops[0]);
      RunKeeps(Next(s, ops[0]), ops[1..], t);
    }
  }

  /** A capture of a commit that is not archived yet publishes it, unless the frame kept for the very
      next commit does not extend the archived history. A segment, which leaves no gap, is published
      exactly when the frame of the very next commit is kept and no base is asked for. */
  lemma NewCommitIsCaptured(s: State, now: int)
    requires Valid(s) && s.memory.Some? && CaptureTime(s.memory.value.last, now).Some?
    requires s.memory.value.head.Some? ==> s.memory.value.head.value.commit < Current(s.source)
    ensures var plan, head, commit := CapturePlan(s.source, s.memory.value, now), s.memory.value.head, Current(s.source);
            var next := head.Some? && !s.source.pending && commit == head.value.commit + 1 && commit in s.source.outbox;
            if next && s.source.histories[commit] != Extended(s.source.histories[commit - 1], FrameOf(s.source.histories[commit])) then plan == Refuse
            else plan.Publish? && plan.entry.commit == commit && plan.entry.history == s.source.histories[commit] && (plan.entry.Segment? <==> next)
  {
    if s.memory.value.head.Some? {
      var entries := s.disk.entries;
      assert Recorded(s.source, entries[|entries| - 1]);
    }
  }

  lemma SameCommitPlan(source: Source, m: Memory, now: int)
    requires source.histories != [] && m.head.Some? && m.head.value.commit == Current(source)
    ensures !CapturePlan(source, m, now).Publish?
  {
  }

  /** Capturing at the commit already archived publishes nothing. */
  lemma SameCommitPublishesNothing(s: State, now: int, reached: Reached)
    requires Valid(s) && s.disk.entries != [] && s.disk.entries[|s.disk.entries| - 1].commit == Current(s.source)
    ensures Next(s, Capture(now, reached)).disk.entries == s.disk.entries && Next(s, Capture(now, reached)).disk.proofs == s.disk.proofs
  {
    if s.memory.Some? { SameCommitPlan(s.source, s.memory.value, now); }
  }
}
