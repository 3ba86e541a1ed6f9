/** Page-backed generations: every loaded graph owns one page read transaction, which stays open
    while the generation is current or pinned by a lease. */
module Generations {

  import opened Orders
  import opened Sums

  type Generation = nat

  datatype Lease = Lease(generation: Generation, snapshot: bool)

  datatype Retention = Retention(refs: nat, bytes: nat, openedAt: nat)

  /** Limits of zero mean no limit. */
  datatype Limits = Limits(leases: nat, bytes: nat)

  /** Pins: leases by id, and per pinned generation its retention, listed in order of first pin. */
  datatype Pins = Pins(
    leases: map<nat, Lease>,
    nextLease: nat,
    retentions: map<Generation, Retention>,
    order: seq<Generation>,
    retained: nat,
    active: nat,
    snapshots: nat,
    clock: nat)

  /** Page read transactions: one per generation ever loaded. Closing one that is not open is a
      fault. */
  datatype Pages = Pages(next: Generation, sizes: seq<nat>, open: set<Generation>, shut: set<Generation>, faults: nat)

  datatype State = State(
    pages: Pages,
    pins: Pins,
    current: Generation,
    readers: set<nat>,
    writer: bool,
    activeTx: nat,
    closed: bool)

  const MAX_UINT64: nat := 0xffff_ffff_ffff_ffff

  datatype Error = DatabaseClosed | SizeUnavailable | LeaseLimit | ByteOverflow | ByteLimit | TransactionsActive | SnapshotActive | WriterBusy

  datatype Outcome = Done | Granted(lease: nat) | Failed(error: Error)

  // Page transactions.

  function Load(p: Pages, size: nat): Pages {
    p.(next := p.next + 1, sizes := p.sizes + [size], open := p.open + {p.next})
  }

  function Rollback(p: Pages, g: Generation): Pages {
    if g in p.open then p.(open := p.open - {g}, shut := p.shut + {g}) else p.(faults := p.faults + 1)
  }

  // Pins.

  /** Why a lease on a generation of this size is refused, checked in this order. */
  function Refusal(p: Pins, limits: Limits, g: Generation, size: nat): Outcome {
    if size == 0 then Failed(SizeUnavailable)
    else if limits.leases != 0 && p.active >= limits.leases then Failed(LeaseLimit)
    else if g in p.retentions then Done
    else if size > MAX_UINT64 - p.retained then Failed(ByteOverflow)
    else if limits.bytes != 0 && (size > limits.bytes || p.retained > limits.bytes - size) then Failed(ByteLimit)
    else Done
  }

  /** Pin a generation by a new lease. */
  function Admit(p: Pins, g: Generation, size: nat, snapshot: bool): Pins {
    var first := g !in p.retentions;
    var retention := if first then Retention(0, size, p.clock) else p.retentions[g];
    Pins(
      p.leases[p.nextLease := Lease(g, snapshot)],
      p.nextLease + 1,
      p.retentions[g := retention.(refs := retention.refs + 1)],
      if first then p.order + [g] else p.order,
      if first then p.retained + size else p.retained,
      p.active + 1,
      if snapshot then p.snapshots + 1 else p.snapshots,
      p.clock + 1)
  }

  /** Does releasing this lease unpin its generation? */
  predicate LastRef(p: Pins, l: nat)
    requires l in p.leases
  {
    p.leases[l].generation in p.retentions && p.retentions[p.leases[l].generation].refs <= 1
  }

  function Sub(a: nat, b: nat): nat { if a < b then 0 else a - b }

  function Drop(p: Pins, l: nat): Pins
    requires l in p.leases
  {
    var g := p.leases[l].generation;
    var rest := p.(leases := p.leases - {l}, active := Sub(p.active, 1), snapshots := if p.leases[l].snapshot then Sub(p.snapshots, 1) else p.snapshots);
    if g !in p.retentions then rest
    else if LastRef(p, l) then rest.(retentions := p.retentions - {g}, order := Without(p.order, g), retained := Sub(p.retained, p.retentions[g].bytes))
    else rest.(retentions := p.retentions[g := p.retentions[g].(refs := p.retentions[g].refs - 1)])
  }

  // What is kept.

  function LeasesOf(leases: map<nat, Lease>, g: Generation): set<nat> {
    set l | l in leases && leases[l].generation == g
  }

  function SnapshotLeases(leases: map<nat, Lease>): set<nat> {
    set l | l in leases && leases[l].snapshot
  }

  ghost predicate Numbered(leases: map<nat, Lease>, next: nat) { forall l :: l in leases ==> l < next }

  /** A generation is retained exactly while leases pin it, with as many references. */
  ghost predicate Counted(leases: map<nat, Lease>, retentions: map<Generation, Retention>) {
    forall g: nat :: (g in retentions <==> LeasesOf(leases, g) != {}) && (g in retentions ==> retentions[g].refs == |LeasesOf(leases, g)|)
  }

  /** The list holds the retained generations, once each, in the order they were first pinned. */
  ghost predicate Listed(order: seq<Generation>, retentions: map<Generation, Retention>, clock: nat) {
    && Distinct(order)
    && (forall g: nat :: g in order <==> g in retentions)
    && (forall i, j :: 0 <= i < j < |order| ==> retentions[order[i]].openedAt < retentions[order[j]].openedAt)
    && (forall g :: g in retentions ==> retentions[g].openedAt < clock)
  }

  ghost predicate Sized(retentions: map<Generation, Retention>, sizes: seq<nat>) {
    forall g :: g in retentions ==> g < |sizes| && retentions[g].bytes == sizes[g] > 0
  }

  function BytesOf(retentions: map<Generation, Retention>, g: Generation): nat {
    if g in retentions then retentions[g].bytes else 0
  }

  /** The bytes of the generations in a list. */
  function Bytes(retentions: map<Generation, Retention>, order: seq<Generation>): nat {
    if order == [] then 0 else Bytes(retentions, order[..|order| - 1]) + BytesOf(retentions, order[|order| - 1])
  }

  ghost predicate Within(p: Pins, limits: Limits) {
    (limits.leases != 0 ==> p.active <= limits.leases) && (limits.bytes != 0 ==> p.retained <= limits.bytes) && p.retained <= MAX_UINT64
  }

  ghost predicate Tallied(p: Pins) {
    && Numbered(p.leases, p.nextLease)
    && p.active == |p.leases| && p.snapshots == |SnapshotLeases(p.leases)|
    && Counted(p.leases, p.retentions)
  }

  ghost predicate Measured(p: Pins, sizes: seq<nat>) {
    && Listed(p.order, p.retentions, p.clock)
    && Sized(p.retentions, sizes)
    && p.retained == Bytes(p.retentions, p.order)
  }

  ghost predicate Pinned(p: Pins, sizes: seq<nat>, limits: Limits) {
    Tallied(p) && Measured(p, sizes) && Within(p, limits)
  }

  lemma {:induction false} BytesSame(r: map<Generation, Retention>, s: map<Generation, Retention>, order: seq<Generation>)
    requires forall i :: 0 <= i < |order| ==> BytesOf(r, order[i]) == BytesOf(s, order[i])
    ensures Bytes(r, order) == Bytes(s, order)
  {
    if order != [] { BytesSame(r, s, order[..|order| - 1]); }
  }

  lemma BytesSnoc(r: map<Generation, Retention>, a: seq<Generation>, g: Generation)
    ensures Bytes(r, a + [g]) == Bytes(r, a) + BytesOf(r, g)
  {
    assert (a + [g])[..|a|] == a;
  }

  lemma {:induction false} BytesConcat(r: map<Generation, Retention>, a: seq<Generation>, b: seq<Generation>)
    ensures Bytes(r, a + b) == Bytes(r, a) + Bytes(r, b)
    decreases |b|
  {
    if b == [] {
      assert a + b == a;
    } else {
      assert (a + b)[..|a + b| - 1] == a + b[..|b| - 1];
      BytesConcat(r, a, b[..|b| - 1]);
    }
  }

  lemma {:induction false} WithoutIsCut(order: seq<Generation>, g: Generation) returns (i: nat)
    requires Distinct(order) && g in order
    ensures i < |order| && order[i] == g && Without(order, g) == order[..i] + order[i + 1..]
  {
    if order[0] == g {
      i := 0;
      HeadIsApart(order);
      WithoutDistinct(order[1..], g);
    } else {
      HeadIsApart(order);
      var j := WithoutIsCut(order[1..], g);
      i := j + 1;
      assert order[..i] == [order[0]] + order[1..][..j];
    }
  }

  lemma BytesWithout(r: map<Generation, Retention>, order: seq<Generation>, g: Generation)
    requires Distinct(order) && g in order
    ensures Bytes(r, order) == Bytes(r, Without(order, g)) + BytesOf(r, g)
  {
    var i := WithoutIsCut(order, g);
    var a, b := order[..i], order[i + 1..];
    assert order == (a + [g]) + b;
    BytesConcat(r, a + [g], b);
    BytesSnoc(r, a, g);
    BytesConcat(r, a, b);
  }

  // Admission keeps the pins.

  lemma AdmitCounted(leases: map<nat, Lease>, retentions: map<Generation, Retention>, l: nat, lease: Lease, after: map<Generation, Retention>)
    requires Counted(leases, retentions) && l !in leases
    requires var g := lease.generation;
             g in after && after.Keys == retentions.Keys + {g} && after[g].refs == (if g in retentions then retentions[g].refs else 0) + 1
             && forall h :: h in retentions && h != g ==> after[h].refs == retentions[h].refs
    ensures Counted(leases[l := lease], after)
  {
    var more, g := leases[l := lease], lease.generation;
    forall h: nat ensures (h in after <==> LeasesOf(more, h) != {}) && (h in after ==> after[h].refs == |LeasesOf(more, h)|) {
      OneLeaseMore(leases, l, lease, h);
      assert (h in retentions <==> LeasesOf(leases, h) != {}) && (h in retentions ==> retentions[h].refs == |LeasesOf(leases, h)|);
    }
  }

  lemma OneLeaseMore(leases: map<nat, Lease>, l: nat, lease: Lease, h: Generation)
    requires l !in leases
    ensures LeasesOf(leases[l := lease], h) == if h == lease.generation then LeasesOf(leases, h) + {l} else LeasesOf(leases, h)
    ensures |LeasesOf(leases[l := lease], h)| == |LeasesOf(leases, h)| + if h == lease.generation then 1 else 0
  {
    LeasesWith(leases, l, lease, h);
    assert l !in LeasesOf(leases, h);
  }

  lemma LeasesWith(leases: map<nat, Lease>, l: nat, lease: Lease, h: Generation)
    requires l !in leases
    ensures LeasesOf(leases[l := lease], h) == if h == lease.generation then LeasesOf(leases, h) + {l} else LeasesOf(leases, h)
  {
    var more := leases[l := lease];
    forall x: nat ensures x in LeasesOf(more, h) <==> x in LeasesOf(leases, h) || (x == l && h == lease.generation) { }
  }

  lemma AdmitListed(order: seq<Generation>, retentions: map<Generation, Retention>, clock: nat, g: Generation, size: nat)
    requires Listed(order, retentions, clock) && g !in retentions
    ensures Listed(order + [g], retentions[g := Retention(1, size, clock)], clock + 1)
  {
    assert g !in order;
  }

  lemma AgainListed(order: seq<Generation>, retentions: map<Generation, Retention>, clock: nat, g: Generation)
    requires Listed(order, retentions, clock) && g in retentions
    ensures Listed(order, retentions[g := retentions[g].(refs := retentions[g].refs + 1)], clock + 1)
  {
  }

  lemma AdmitBytes(p: Pins, g: Generation, size: nat)
    requires Listed(p.order, p.retentions, p.clock) && g !in p.retentions
    ensures Bytes(p.retentions[g := Retention(1, size, p.clock)], p.order + [g]) == Bytes(p.retentions, p.order) + size
  {
    var r := p.retentions[g := Retention(1, size, p.clock)];
    forall i | 0 <= i < |p.order| ensures BytesOf(p.retentions, p.order[i]) == BytesOf(r, p.order[i]) { assert p.order[i] in p.order; }
    BytesSame(p.retentions, r, p.order);
    BytesSnoc(r, p.order, g);
  }

  lemma AdmitSized(p: Pins, sizes: seq<nat>, g: Generation, snapshot: bool)
    requires Sized(p.retentions, sizes) && g < |sizes| && sizes[g] > 0
    ensures Sized(Admit(p, g, sizes[g], snapshot).retentions, sizes)
  {
  }

  lemma AdmitNew(p: Pins, sizes: seq<nat>, g: Generation, snapshot: bool)
    requires Measured(p, sizes) && g !in p.retentions && g < |sizes| && sizes[g] > 0
    ensures Measured(Admit(p, g, sizes[g], snapshot), sizes)
  {
    var q, r := Admit(p, g, sizes[g], snapshot), p.retentions[g := Retention(1, sizes[g], p.clock)];
    AdmitSized(p, sizes, g, snapshot);
    assert q.retentions == r && q.order == p.order + [g] && q.clock == p.clock + 1 && q.retained == p.retained + sizes[g];
    assert Listed(q.order, r, q.clock) by { AdmitListed(p.order, p.retentions, p.clock, g, sizes[g]); }
    assert q.retained == Bytes(r, q.order) by { AdmitBytes(p, g, sizes[g]); }
  }

  lemma AdmitAgain(p: Pins, sizes: seq<nat>, g: Generation, snapshot: bool)
    requires Measured(p, sizes) && g in p.retentions && g < |sizes|
    ensures Measured(Admit(p, g, sizes[g], snapshot), sizes)
  {
    AgainListed(p.order, p.retentions, p.clock, g);
    BytesSame(p.retentions, p.retentions[g := p.retentions[g].(refs := p.retentions[g].refs + 1)], p.order);
  }

  lemma AdmitSnapshots(leases: map<nat, Lease>, l: nat, lease: Lease)
    requires l !in leases
    ensures |leases[l := lease]| == |leases| + 1
    ensures |SnapshotLeases(leases[l := lease])| == |SnapshotLeases(leases)| + if lease.snapshot then 1 else 0
  {
    var more := leases[l := lease];
    assert more.Keys == leases.Keys + {l} && |more.Keys| == |more|;
    if lease.snapshot {
      assert SnapshotLeases(more) == SnapshotLeases(leases) + {l};
    } else {
      assert SnapshotLeases(more) == SnapshotLeases(leases);
    }
  }

  lemma AdmitRefs(p: Pins, g: Generation, size: nat, snapshot: bool)
    requires Counted(p.leases, p.retentions) && p.nextLease !in p.leases
    ensures var q := Admit(p, g, size, snapshot); Counted(q.leases, q.retentions)
  {
    AdmitCounted(p.leases, p.retentions, p.nextLease, Lease(g, snapshot), Admit(p, g, size, snapshot).retentions);
  }

  lemma AdmitTally(p: Pins, g: Generation, size: nat, snapshot: bool)
    requires Tallied(p)
    ensures Tallied(Admit(p, g, size, snapshot))
  {
    AdmitSnapshots(p.leases, p.nextLease, Lease(g, snapshot));
    AdmitRefs(p, g, size, snapshot);
  }

  lemma AdmitWithin(p: Pins, limits: Limits, g: Generation, size: nat, snapshot: bool)
    requires Within(p, limits) && Refusal(p, limits, g, size) == Done
    ensures Within(Admit(p, g, size, snapshot), limits) && size > 0
  {
  }

  lemma AdmitPins(p: Pins, sizes: seq<nat>, limits: Limits, g: Generation, snapshot: bool)
    requires Pinned(p, sizes, limits) && g < |sizes| && Refusal(p, limits, g, sizes[g]) == Done
    ensures Pinned(Admit(p, g, sizes[g], snapshot), sizes, limits)
  {
    AdmitTally(p, g, sizes[g], snapshot);
    AdmitWithin(p, limits, g, sizes[g], snapshot);
    if g in p.retentions {
      AdmitAgain(p, sizes, g, snapshot);
    } else {
      AdmitNew(p, sizes, g, snapshot);
    }
  }

  /** A lease is refused exactly when the size is unknown or a limit would be exceeded with it. */
  lemma RefusedIffOver(p: Pins, limits: Limits, g: Generation, size: nat, snapshot: bool)
    requires Within(p, limits)
    ensures Refusal(p, limits, g, size).Failed? <==> size == 0 || !Within(Admit(p, g, size, snapshot), limits)
  {
  }

  // Releasing keeps the pins.

  lemma DropCounted(leases: map<nat, Lease>, retentions: map<Generation, Retention>, l: nat)
    requires Counted(leases, retentions) && l in leases
    ensures var g := leases[l].generation;
            g in retentions && retentions[g].refs > 0 &&
            Counted(leases - {l}, if retentions[g].refs <= 1 then retentions - {g} else retentions[g := retentions[g].(refs := retentions[g].refs - 1)])
  {
    var g, fewer := leases[l].generation, leases - {l};
    assert l in LeasesOf(leases, g);
    assert g in retentions;
    assert |LeasesOf(leases, g)| == |LeasesOf(leases, g) - {l}| + 1;
    var after := if retentions[g].refs <= 1 then retentions - {g} else retentions[g := retentions[g].(refs := retentions[g].refs - 1)];
    forall h: nat ensures (h in after <==> LeasesOf(fewer, h) != {}) && (h in after ==> after[h].refs == |LeasesOf(fewer, h)|) {
      assert LeasesOf(fewer, h) == if h == g then LeasesOf(leases, h) - {l} else LeasesOf(leases, h);
    }
  }

  /** The list without one of its places, place by place. */
  lemma PlacesAfterCut(order: seq<Generation>, i: nat)
    requires i < |order|
    ensures var rest := order[..i] + order[i + 1..];
            |rest| == |order| - 1 && forall k :: 0 <= k < |rest| ==> rest[k] == order[if k < i then k else k + 1]
  {
  }

  lemma CutStaysOrdered(order: seq<Generation>, retentions: map<Generation, Retention>, i: nat)
    requires i < |order| && Distinct(order) && forall g: nat :: g in order ==> g in retentions
    requires forall k, l :: 0 <= k < l < |order| ==> retentions[order[k]].openedAt < retentions[order[l]].openedAt
    ensures var rest, fewer := order[..i] + order[i + 1..], retentions - {order[i]};
            && (forall k :: 0 <= k < |rest| ==> rest[k] in fewer)
            && (forall k, l :: 0 <= k < l < |rest| ==> fewer[rest[k]].openedAt < fewer[rest[l]].openedAt)
  {
    PlacesAfterCut(order, i);
    var rest := order[..i] + order[i + 1..];
    forall k | 0 <= k < |rest| ensures rest[k] != order[i] && rest[k] in retentions { assert order[if k < i then k else k + 1] in order; }
  }

  lemma DropListed(order: seq<Generation>, retentions: map<Generation, Retention>, clock: nat, g: Generation)
    requires Listed(order, retentions, clock) && g in retentions
    ensures Listed(Without(order, g), retentions - {g}, clock)
  {
    var i := WithoutIsCut(order, g);
    WithoutDistinct(order, g);
    CutStaysOrdered(order, retentions, i);
    forall h: nat ensures h in Without(order, g) <==> h in retentions - {g} {
      assert h in Without(order, g) <==> h in multiset(Without(order, g));
    }
  }

  lemma DropSnapshots(leases: map<nat, Lease>, l: nat)
    requires l in leases
    ensures |leases| == |leases - {l}| + 1
    ensures |SnapshotLeases(leases)| == |SnapshotLeases(leases - {l})| + if leases[l].snapshot then 1 else 0
  {
    var fewer := leases - {l};
    assert leases.Keys == fewer.Keys + {l} && |leases.Keys| == |leases| && |fewer.Keys| == |fewer|;
    if leases[l].snapshot {
      assert SnapshotLeases(leases) == SnapshotLeases(fewer) + {l};
    } else {
      assert SnapshotLeases(leases) == SnapshotLeases(fewer);
    }
  }

  lemma DropLast(p: Pins, sizes: seq<nat>, l: nat)
    requires Measured(p, sizes) && l in p.leases && LastRef(p, l)
    ensures Measured(Drop(p, l), sizes) && Drop(p, l).retained <= p.retained
  {
    var g := p.leases[l].generation;
    var r, order := p.retentions - {g}, Without(p.order, g);
    DropListed(p.order, p.retentions, p.clock, g);
    BytesWithout(p.retentions, p.order, g);
    forall i | 0 <= i < |order| ensures BytesOf(p.retentions, order[i]) == BytesOf(r, order[i]) { assert order[i] in order; }
    BytesSame(p.retentions, r, order);
  }

  lemma DropAnother(p: Pins, sizes: seq<nat>, l: nat)
    requires Measured(p, sizes) && l in p.leases && !LastRef(p, l)
    ensures Measured(Drop(p, l), sizes) && Drop(p, l).retained <= p.retained
  {
    BytesSame(p.retentions, Drop(p, l).retentions, p.order);
  }

  lemma DropTally(p: Pins, l: nat)
    requires Tallied(p) && l in p.leases
    ensures Tallied(Drop(p, l))
  {
    DropSnapshots(p.leases, l);
    DropCounted(p.leases, p.retentions, l);
  }

  lemma DropPins(p: Pins, sizes: seq<nat>, limits: Limits, l: nat)
    requires Pinned(p, sizes, limits) && l in p.leases
    ensures Pinned(Drop(p, l), sizes, limits)
  {
    DropTally(p, l);
    if LastRef(p, l) {
      DropLast(p, sizes, l);
    } else {
      DropAnother(p, sizes, l);
    }
  }

  // The steps of the database.

  datatype Op =
    | BeginRead
    | FinishRead(lease: nat)
    | BeginWrite
    | FinishWrite
    | Snapshot
    | Release(lease: nat)
    | Commit(size: nat, grown: bool)
    | Rebuild(size: nat, grown: bool)
    | Compact(size: nat)
    | Close

  function CurrentSize(s: State): nat {
    if s.current < |s.pages.sizes| then s.pages.sizes[s.current] else 0
  }

  function PinReply(s: State, limits: Limits): Outcome {
    if s.closed then Failed(DatabaseClosed)
    else
      var refusal := Refusal(s.pins, limits, s.current, CurrentSize(s));
      if refusal.Failed? then refusal else Granted(s.pins.nextLease)
  }

  function Pin(s: State, snapshot: bool): State {
    s.(pins := Admit(s.pins, s.current, CurrentSize(s), snapshot))
  }

  /** Release a lease: the last one on a generation that is no longer current closes it. */
  function Unpin(s: State, l: nat): State
    requires l in s.pins.leases
  {
    var g := s.pins.leases[l].generation;
    s.(pins := Drop(s.pins, l), pages := if LastRef(s.pins, l) && g != s.current then Rollback(s.pages, g) else s.pages)
  }

  /** A committed write replaces the current generation, closing it unless it is pinned. When the
      page file could not grow, an unpinned generation, already closed, is loaded again. */
  function Switch(s: State, size: nat, grown: bool): State {
    var unpinned := s.current !in s.pins.retentions;
    var pages := if unpinned then Rollback(s.pages, s.current) else s.pages;
    if grown || unpinned then s.(pages := Load(pages, size), current := pages.next) else s.(pages := pages)
  }

  function Reply(s: State, limits: Limits, op: Op): Outcome {
    match op
    case BeginRead => PinReply(s, limits)
    case FinishRead(_) => Done
    case BeginWrite => if s.closed then Failed(DatabaseClosed) else if s.writer then Failed(WriterBusy) else Done
    case FinishWrite => Done
    case Snapshot => PinReply(s, limits)
    case Release(_) => Done
    case Commit(_, _) => Done
    case Rebuild(_, _) => if s.closed then Failed(DatabaseClosed) else if s.writer then Failed(WriterBusy) else Done
    case Compact(_) =>
      if s.closed then Failed(DatabaseClosed)
      else if s.activeTx != 0 || s.pins.active != 0 then Failed(TransactionsActive) else Done
    case Close =>
      if s.closed then Done
      else if s.activeTx != 0 then Failed(TransactionsActive)
      else if s.pins.snapshots != 0 then Failed(SnapshotActive) else Done
  }

  /** The state after a step; a refused step changes nothing. */
  function Next(s: State, limits: Limits, op: Op): State {
    if Reply(s, limits, op).Failed? then s
    else match op
      case BeginRead => Pin(s, false).(readers := s.readers + {s.pins.nextLease}, activeTx := s.activeTx + 1)
      case FinishRead(l) => if l in s.readers && l in s.pins.leases then Unpin(s, l).(readers := s.readers - {l}, activeTx := Sub(s.activeTx, 1)) else s
      case BeginWrite => s.(writer := true, activeTx := s.activeTx + 1)
      case FinishWrite => if s.writer then s.(writer := false, activeTx := Sub(s.activeTx, 1)) else s
      case Snapshot => Pin(s, true)
      case Release(l) => if l in s.pins.leases && s.pins.leases[l].snapshot then Unpin(s, l) else s
      case Commit(size, grown) => if s.writer then Switch(s, size, grown) else s
      case Rebuild(size, grown) => Switch(s, size, grown)
      case Compact(size) => Switch(s, size, true)
      case Close => if s.closed then s else s.(pages := Rollback(s.pages, s.current), closed := true)
  }

  /** Every transaction ever opened is open or shut, never both, and none was closed twice. It is
      open exactly while its generation is current or pinned. */
  ghost predicate PagesFit(p: Pages, retentions: map<Generation, Retention>, current: Generation, closed: bool) {
    && p.faults == 0 && |p.sizes| == p.next && current < p.next
    && p.open !! p.shut
    && (forall g: nat :: g < p.next <==> g in p.open || g in p.shut)
    && (forall g: nat :: g in p.open <==> !closed && (g == current || g in retentions))
  }

  ghost predicate PagesOk(s: State) { PagesFit(s.pages, s.pins.retentions, s.current, s.closed) }

  function ReaderLeases(leases: map<nat, Lease>): set<nat> {
    set l | l in leases && !leases[l].snapshot
  }

  /** Readers own exactly the leases that are not snapshots. */
  ghost predicate TransactionsOk(s: State) {
    && s.readers == ReaderLeases(s.pins.leases)
    && s.activeTx == |s.readers| + (if s.writer then 1 else 0)
    && (s.closed ==> s.pins.leases == map[] && !s.writer)
  }

  ghost predicate Consistent(s: State, limits: Limits) {
    var pages, pins := PagesFit(s.pages, s.pins.retentions, s.current, s.closed), Pinned(s.pins, s.pages.sizes, limits);
    pages && pins && TransactionsOk(s)
  }

  lemma PinPages(s: State, snapshot: bool)
    requires PagesOk(s) && !s.closed
    ensures PagesOk(Pin(s, snapshot))
  {
    assert Pin(s, snapshot).pins.retentions.Keys == s.pins.retentions.Keys + {s.current};
  }

  lemma PinReaders(leases: map<nat, Lease>, l: nat, lease: Lease)
    requires l !in leases
    ensures ReaderLeases(leases[l := lease]) == ReaderLeases(leases) + if lease.snapshot then {} else {l}
  {
  }

  lemma PinConsistent(s: State, limits: Limits, snapshot: bool)
    requires Consistent(s, limits) && PinReply(s, limits).Granted?
    ensures Pinned(Pin(s, snapshot).pins, s.pages.sizes, limits) && PagesOk(Pin(s, snapshot))
    ensures s.pins.nextLease !in s.readers
    ensures ReaderLeases(Pin(s, snapshot).pins.leases) == s.readers + if snapshot then {} else {s.pins.nextLease}
  {
    AdmitPins(s.pins, s.pages.sizes, limits, s.current, snapshot);
    PinPages(s, snapshot);
    PinReaders(s.pins.leases, s.pins.nextLease, Lease(s.current, snapshot));
  }

  lemma UnpinPages(s: State, l: nat)
    requires PagesOk(s) && l in s.pins.leases && Counted(s.pins.leases, s.pins.retentions) && !s.closed
    ensures PagesOk(Unpin(s, l))
  {
    DropCounted(s.pins.leases, s.pins.retentions, l);
  }

  lemma UnpinReaders(leases: map<nat, Lease>, l: nat)
    ensures ReaderLeases(leases - {l}) == ReaderLeases(leases) - {l}
  {
  }

  lemma UnpinConsistent(s: State, limits: Limits, l: nat)
    requires Consistent(s, limits) && l in s.pins.leases
    ensures Pinned(Unpin(s, l).pins, Unpin(s, l).pages.sizes, limits) && PagesOk(Unpin(s, l)) && !s.closed
    ensures ReaderLeases(Unpin(s, l).pins.leases) == s.readers - {l}
  {
    DropPins(s.pins, s.pages.sizes, limits, l);
    UnpinPages(s, l);
    UnpinReaders(s.pins.leases, l);
    assert Unpin(s, l).pages.sizes == s.pages.sizes && Unpin(s, l).pins == Drop(s.pins, l);
  }

  lemma MoreSizes(p: Pins, sizes: seq<nat>, limits: Limits, size: nat)
    requires Pinned(p, sizes, limits)
    ensures Pinned(p, sizes + [size], limits)
  {
  }

  lemma SwitchPages(s: State, size: nat, grown: bool)
    requires PagesOk(s) && !s.closed && forall g :: g in s.pins.retentions ==> g < s.pages.next
    ensures PagesOk(Switch(s, size, grown))
  {
  }

  lemma SwitchConsistent(s: State, limits: Limits, size: nat, grown: bool)
    requires Consistent(s, limits) && !s.closed
    ensures Consistent(Switch(s, size, grown), limits)
  {
    SwitchPages(s, size, grown);
    MoreSizes(s.pins, s.pages.sizes, limits, size);
  }

  lemma CloseConsistent(s: State, limits: Limits)
    requires Consistent(s, limits) && !s.closed && s.activeTx == 0 && s.pins.snapshots == 0
    ensures Consistent(s.(pages := Rollback(s.pages, s.current), closed := true), limits)
  {
    NoLeases(s.pins.leases);
    forall g: nat ensures g !in s.pins.retentions { assert LeasesOf(s.pins.leases, g) == {}; }
  }

  lemma NoLeases(leases: map<nat, Lease>)
    requires SnapshotLeases(leases) == {} && ReaderLeases(leases) == {}
    ensures leases == map[]
  {
    assert forall l :: l in leases ==> l in SnapshotLeases(leases) || l in ReaderLeases(leases);
  }

  lemma BeginReadConsistent(s: State, limits: Limits)
    requires Consistent(s, limits)
    ensures Consistent(Next(s, limits, BeginRead), limits)
  {
    if PinReply(s, limits).Granted? {
      PinConsistent(s, limits, false);
      ReaderJoins(s, Next(s, limits, BeginRead), s.pins.nextLease);
    }
  }

  lemma ReaderJoins(s: State, t: State, l: nat)
    requires TransactionsOk(s) && !s.closed && !t.closed && l !in s.readers && t.readers == s.readers + {l} && t.readers == ReaderLeases(t.pins.leases)
    requires t.activeTx == s.activeTx + 1 && t.writer == s.writer
    ensures TransactionsOk(t)
  {
  }

  lemma FinishReadConsistent(s: State, limits: Limits, l: nat)
    requires Consistent(s, limits) && l in s.readers
    ensures Consistent(Next(s, limits, FinishRead(l)), limits)
  {
    UnpinConsistent(s, limits, l);
  }

  lemma PinnedSnapshot(s: State, limits: Limits)
    requires Consistent(s, limits) && PinReply(s, limits).Granted?
    ensures Consistent(Pin(s, true), limits)
  {
    PinConsistent(s, limits, true);
    ReadersStay(s, Pin(s, true));
  }

  lemma SnapshotIsPin(s: State, limits: Limits)
    ensures Next(s, limits, Snapshot) == if PinReply(s, limits).Granted? then Pin(s, true) else s
  {
  }

  lemma SnapshotConsistent(s: State, limits: Limits)
    requires Consistent(s, limits)
    ensures Consistent(Next(s, limits, Snapshot), limits)
  {
    SnapshotIsPin(s, limits);
    if PinReply(s, limits).Granted? { PinnedSnapshot(s, limits); }
  }

  lemma ReadersStay(s: State, t: State)
    requires TransactionsOk(s) && !t.closed && t.readers == s.readers && ReaderLeases(t.pins.leases) == s.readers + {}
    requires t.activeTx == s.activeTx && t.writer == s.writer
    ensures TransactionsOk(t)
  {
  }

  lemma ReleaseConsistent(s: State, limits: Limits, l: nat)
    requires Consistent(s, limits) && l in s.pins.leases && s.pins.leases[l].snapshot
    ensures Consistent(Unpin(s, l), limits)
  {
    UnpinConsistent(s, limits, l);
    assert s.readers - {l} == s.readers;
  }

  /** Every step keeps the state consistent. */
  lemma StepConsistent(s: State, limits: Limits, op: Op)
    requires Consistent(s, limits)
    ensures Consistent(Next(s, limits, op), limits)
  {
    match op
    case BeginRead => BeginReadConsistent(s, limits);
    case FinishRead(l) => if l in s.readers { FinishReadConsistent(s, limits, l); }
    case BeginWrite =>
    case FinishWrite =>
    case Snapshot => SnapshotConsistent(s, limits);
    case Release(l) => if l in s.pins.leases && s.pins.leases[l].snapshot { ReleaseConsistent(s, limits, l); }
    case Commit(size, grown) => if s.writer { SwitchConsistent(s, limits, size, grown); }
    case Rebuild(size, grown) => if !s.closed { SwitchConsistent(s, limits, size, grown); }
    case Compact(size) => if !s.closed { SwitchConsistent(s, limits, size, true); }
    case Close => if !s.closed && Reply(s, limits, op) == Done { CloseConsistent(s, limits); }
  }

  /** A database just opened: one generation loaded, nothing pinned. */
  function Opened(size: nat): State {
    State(Pages(1, [size], {0}, {}, 0), Pins(map[], 0, map[], [], 0, 0, 0, 0), 0, {}, false, 0, false)
  }

  function Run(s: State, limits: Limits, ops: seq<Op>): State
    decreases |ops|
  {
    if ops == [] then s else Run(Next(s, limits, ops[0]), limits, ops[1..])
  }

  lemma OpenedConsistent(size: nat, limits: Limits)
    ensures Consistent(Opened(size), limits)
  {
  }

  /** Over every run, from the opening of the database. */
  lemma {:induction false} RunConsistent(s: State, limits: Limits, ops: seq<Op>)
    requires Consistent(s, limits)
    ensures Consistent(Run(s, limits, ops), limits)
    decreases |ops|
  {
    if ops != [] {
      StepConsistent(s, limits, ops[0]);
      RunConsistent(Next(s, limits, ops[0]), limits, ops[1..]);
    }
  }

  /** A generation stays open as long as any lease is on it, in every reachable state. */
  lemma LeaseKeepsOpen(size: nat, limits: Limits, ops: seq<Op>, l: nat)
    requires l in Run(Opened(size), limits, ops).pins.leases
    ensures var s := Run(Opened(size), limits, ops); s.pins.leases[l].generation in s.pages.open
  {
    OpenedConsistent(size, limits);
    RunConsistent(Opened(size), limits, ops);
    var s := Run(Opened(size), limits, ops);
    assert l in LeasesOf(s.pins.leases, s.pins.leases[l].generation);
  }

  /** A read that begins gets a lease of its own, on the generation that is current then. */
  lemma ReaderSeesCurrent(s: State, limits: Limits)
    requires Consistent(s, limits) && Reply(s, limits, BeginRead).Granted?
    ensures var t, l := Next(s, limits, BeginRead), Reply(s, limits, BeginRead).lease;
            l !in s.pins.leases && l in t.readers && l in t.pins.leases && t.pins.leases[l] == Lease(s.current, false) && s.current in t.pages.open
  {
    BeginReadConsistent(s, limits);
  }

  /** After a commit that could grow the file, readers begin on a new generation of the new size; if it
      could not, they keep the old one while it is pinned, and otherwise get it loaded again. */
  lemma CommitIsSeen(s: State, limits: Limits, size: nat, grown: bool)
    requires Consistent(s, limits) && s.writer
    ensures var t := Next(s, limits, Commit(size, grown));
            if grown || s.current !in s.pins.retentions
            then t.current !in s.pages.open + s.pages.shut && t.current in t.pages.open && CurrentSize(t) == size
            else t.current == s.current && t.current in t.pages.open && CurrentSize(t) == CurrentSize(s)
  {
    SwitchConsistent(s, limits, size, grown);
  }

  /** Whatever happened before, a successful close leaves every transaction closed, each exactly
      once. */
  lemma ClosedOnce(size: nat, limits: Limits, ops: seq<Op>)
    requires Run(Opened(size), limits, ops).closed
    ensures var s := Run(Opened(size), limits, ops);
            s.pages.faults == 0 && s.pages.open == {} && forall g: nat :: g in s.pages.shut <==> g < s.pages.next
  {
    OpenedConsistent(size, limits);
    RunConsistent(Opened(size), limits, ops);
  }
}
