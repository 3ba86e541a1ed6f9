/** The archive as it runs: capturing, walking chains, opening a directory and selecting what to
    restore. */
module BackupStore {

  import opened Optional
  import opened Orders
  import opened BackupArchive

  /** Walk from an entry to its base. */
  method ChainFor(entries: seq<Entry>, head: Entry) returns (r: Option<seq<Entry>>)
    ensures r == ChainOf(entries, head)
  {
    var current, reverse := head, [];
    ghost var goal := ChainOf(entries, head);
    if goal.Some? { assert goal.value + [] == goal.value; }
    while current.Segment?
      invariant Continued(ChainOf(entries, current), reverse) == goal
      decreases current.commit, current.Segment?
    {
      if current.start == 0 || current.start > current.commit {
        return None;
      }
      var parent := Lookup(entries, current.start - 1, current.previous);
      if parent.None? {
        return None;
      }
      ghost var front := ChainOf(entries, parent.value);
      if front.Some? { assert (front.value + [current]) + reverse == front.value + ([current] + reverse); }
      reverse := [current] + reverse;
      current := parent.value;
    }
    return Some([current] + reverse);
  }

  ghost function Continued(chain: Option<seq<Entry>>, rest: seq<Entry>): Option<seq<Entry>> {
    if chain.None? then None else Some(chain.value + rest)
  }

  datatype Selection = Selected(entry: Entry) | InGap | NotFound

  /** What to restore: a commit, or the latest capture at or before a time. */
  datatype Target = ByCommit(commit: nat) | Before(time: int) | Latest

  predicate InGapOf(e: Entry, target: Target) {
    target.Before? && e.Base? && e.gapStart.Some? && e.gapStart.value < target.time < e.captured
  }

  predicate Admits(target: Target, e: Entry) {
    match target
    case ByCommit(commit) => e.commit == commit
    case Before(time) => e.captured <= time
    case Latest => true
  }

  /** Scan the entries in order. */
  method Select(entries: seq<Entry>, target: Target) returns (r: Selection)
    ensures r == InGap <==> exists i :: 0 <= i < |entries| && InGapOf(entries[i], target)
    ensures r == NotFound ==> forall i :: 0 <= i < |entries| ==> !Admits(target, entries[i])
    ensures r.Selected? ==> r.entry in entries && Admits(target, r.entry)
    ensures r.Selected? ==> forall i :: 0 <= i < |entries| && Admits(target, entries[i]) ==> entries[i].commit <= r.entry.commit
  {
    r := NotFound;
    for i := 0 to |entries|
      invariant r != InGap && forall j :: 0 <= j < i ==> !InGapOf(entries[j], target)
      invariant r == NotFound ==> forall j :: 0 <= j < i ==> !Admits(target, entries[j])
      invariant r.Selected? ==> r.entry in entries[..i] && Admits(target, r.entry)
      invariant r.Selected? ==> forall j :: 0 <= j < i && Admits(target, entries[j]) ==> entries[j].commit <= r.entry.commit
    {
      var e := entries[i];
      if InGapOf(e, target) {
        return InGap;
      }
      if !Admits(target, e) {
        continue;
      }
      if r == NotFound || e.commit > r.entry.commit || (e.commit == r.entry.commit && e.captured > r.entry.captured) {
        r := Selected(e);
      }
    }
  }

  /** Entry i is the latest captured at or before the time. */
  ghost predicate LatestBefore(entries: seq<Entry>, i: int, time: int) {
    && -1 <= i < |entries| && (i >= 0 ==> entries[i].captured <= time)
    && (forall j :: i < j < |entries| ==> time < entries[j].captured)
  }

  /** Restoring before a time selects the latest capture at or before it, or fails exactly when the
      time lies after that capture and the next entry is a base: inside a recorded gap. */
  method RestoreBefore(source: Source, entries: seq<Entry>, time: int) returns (r: Selection)
    requires EntriesOk(source, entries)
    ensures exists i :: LatestBefore(entries, i, time)
    ensures forall i :: LatestBefore(entries, i, time) ==> RestoredAt(source, entries, time, i, r)
  {
    r := Select(entries, Before(time));
    ghost var latest := FindLatest(entries, time);
    forall i | LatestBefore(entries, i, time) ensures RestoredAt(source, entries, time, i, r) {
      GapMeaning(source, entries, time, i);
      if r.Selected? {
        var k :| 0 <= k < |entries| && entries[k] == r.entry;
        assert Recorded(source, entries[k]);
        assert k <= i;
        assert Admits(Before(time), entries[i]);
        assert k == i;
      } else if r == NotFound && i >= 0 {
        assert Admits(Before(time), entries[i]);
      }
    }
  }

  /** What restoring before a time gives, when entry i is the latest captured at or before it. */
  ghost predicate RestoredAt(source: Source, entries: seq<Entry>, time: int, i: int, r: Selection)
    requires LatestBefore(entries, i, time)
  {
    && (r == InGap <==> 0 <= i < |entries| - 1 && entries[i + 1].Base? && entries[i].captured < time)
    && (r == NotFound ==> i == -1)
    && (r.Selected? ==> i >= 0 && r.entry == entries[i] && r.entry.commit < |source.histories| && r.entry.history == source.histories[r.entry.commit])
  }

  lemma {:induction false} FindLatest(entries: seq<Entry>, time: int) returns (i: int)
    requires Increasing(entries)
    ensures LatestBefore(entries, i, time)
  {
    i := |entries| - 1;
    while i >= 0 && entries[i].captured > time
      invariant -1 <= i < |entries| && forall j :: i < j < |entries| ==> time < entries[j].captured
    {
      i := i - 1;
    }
  }

  lemma GapMeaning(source: Source, entries: seq<Entry>, time: int, i: int)
    requires EntriesOk(source, entries) && LatestBefore(entries, i, time)
    ensures (exists k :: 0 <= k < |entries| && InGapOf(entries[k], Before(time)))
            <==> 0 <= i < |entries| - 1 && entries[i + 1].Base? && entries[i].captured < time
  {
    forall k | 0 <= k < |entries| && InGapOf(entries[k], Before(time)) ensures 0 <= i && k == i + 1 && entries[i].captured < time {
      assert Continues(entries, k);
      assert k > 0 && entries[k - 1].captured < time;
      assert i == k - 1;
    }
    if 0 <= i < |entries| - 1 && entries[i + 1].Base? && entries[i].captured < time {
      assert Continues(entries, i + 1);
      assert InGapOf(entries[i + 1], Before(time));
    }
  }

  /** The archive directory and its open state. */
  class Archive {

    var entries: seq<Entry>
    var proofs: set<Entry>
    var anchor: Option<Entry>

    var isOpen: bool
    var head: Option<Entry>
    var last: Option<int>
    var ready: bool
    var loaded: seq<Entry>

    ghost function DiskView(): Disk reads this { Disk(entries, proofs, anchor) }

    ghost function MemoryView(): Memory reads this { Memory(head, last, ready, loaded) }

    ghost function View(source: Source): State
      reads this
    {
      State(source, DiskView(), if isOpen then Some(MemoryView()) else None)
    }

    constructor ()
      ensures DiskView() == Disk([], {}, None) && !isOpen
    {
      entries, proofs, anchor := [], {}, None;
      isOpen, head, last, ready, loaded := false, None, None, false, [];
    }

    /** Proof, entry and anchor become durable one after the other; a crash may come in between. */
    method PublishEntry(e: Entry, reached: Reached, ghost source: Source)
      requires isOpen
      modifies this
      ensures View(source) == AfterCapture(old(View(source)), old(MemoryView()), Publish(e), reached)
    {
      isOpen := false;
      if reached == Nothing {
        return;
      }
      proofs := proofs + {e};
      if reached == Proved {
        return;
      }
      entries := entries + [e];
      if reached == Linked || (anchor.Some? && anchor.value.commit >= e.commit) {
        return;
      }
      anchor := Some(e);
      isOpen, last, head, ready := true, Some(e.captured), Some(e), true;
    }

    method AnchorHead(reached: Reached, ghost source: Source)
      requires isOpen && head.Some?
      modifies this
      ensures View(source) == AfterCapture(old(View(source)), old(MemoryView()), Reanchor, reached)
    {
      if reached != Anchored {
        isOpen := false;
        return;
      }
      if anchor != head && (anchor.None? || anchor.value.commit < head.value.commit) {
        anchor := head;
      }
      ready := true;
    }

    method CaptureBase(source: Source, now: int, reached: Reached)
      requires isOpen && source.histories != []
      modifies this
      ensures View(source) == AfterCapture(old(View(source)), old(MemoryView()), PublishBase(source, old(MemoryView()), now), reached)
    {
      var captured := CaptureTime(last, now);
      if captured.None? {
        return;
      }
      var gapStart := if head.Some? then Some(head.value.captured) else None;
      PublishEntry(Base(Current(source), captured.value, source.histories[Current(source)], gapStart), reached, source);
    }

    method CaptureSegment(source: Source, now: int, frame: nat, history: History, reached: Reached)
      requires isOpen && source.histories != [] && head.Some?
      modifies this
      ensures View(source) == AfterCapture(old(View(source)), old(MemoryView()), PublishSegment(source, old(MemoryView()), now, frame, history), reached)
    {
      var captured := CaptureTime(last, now);
      if captured.None? {
        return;
      }
      PublishEntry(Segment(Current(source), captured.value, history, frame, Current(source), DigestOf(head.value)), reached, source);
    }

    /** Archive the current commit of the source: a first base, nothing, one segment, or a base
        after a gap. */
    method Capture(source: Source, now: int, reached: Reached)
      requires isOpen && source.histories != []
      modifies this
      ensures View(source) == AfterCapture(old(View(source)), old(MemoryView()), CapturePlan(source, old(MemoryView()), now), reached)
    {
      var commit := Current(source);
      var history := source.histories[commit];
      if head.None? {
        CaptureBase(source, now, reached);
        return;
      }
      var tip := head.value;
      if commit < tip.commit || source.histories[tip.commit] != tip.history {
        return;
      }
      if source.pending {
        if tip.commit == commit && tip.history == history && tip in loaded && tip.Base? {
          AnchorHead(reached, source);
        } else if tip.commit != commit {
          CaptureBase(source, now, reached);
        }
        return;
      }
      if commit == tip.commit {
        if history == tip.history {
          AnchorHead(reached, source);
        }
        return;
      }
      if commit != tip.commit + 1 || commit !in source.outbox {
        CaptureBase(source, now, reached);
        return;
      }
      var frame := FrameOf(history);
      if Extended(tip.history, frame) == history {
        CaptureSegment(source, now, frame, history, reached);
      }
    }

    /** Read the directory, in whatever order it lists, and take the highest commit as the head. */
    method Open(listing: seq<Entry>) returns (ok: bool)
      requires !isOpen && multiset(listing) == multiset(entries)
      modifies this
      ensures forall source :: View(source) == AfterReopen(old(View(source)), SortBy(EntryLe, listing))
      ensures ok == isOpen
    {
      var sorted := SortBy(EntryLe, listing);
      var top: Option<Entry>, latest: Option<int> := None, None;
      for i := 0 to |sorted|
        invariant top == TopEntry(sorted[..i]) && latest == LastTime(sorted[..i])
      {
        assert sorted[..i + 1][..i] == sorted[..i];
        latest := Later(latest, sorted[i].captured);
        top := Higher(top, sorted[i]);
      }
      assert sorted[..|sorted|] == sorted;
      ok := OrderOk(sorted) && AnchorOk(sorted, anchor);
      if ok && top.Some? {
        var chain := ChainFor(sorted, top.value);
        ok := chain.Some? && forall i :: 0 <= i < |chain.value| ==> chain.value[i] in proofs;
      }
      if ok {
        isOpen, head, last, ready, loaded := true, top, latest, false, sorted;
      }
    }
  }
}
