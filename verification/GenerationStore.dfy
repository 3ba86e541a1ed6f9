/** The lease bookkeeping of the open database against the steps of the generation protocol. The
    retained generations are on a doubly linked list, and a map leads to its links. */
module GenerationStore {

  import opened Optional
  import opened Orders
  import opened Sums
  import opened Chains
  import opened Generations

  /** The links are those of the generations listed, in order, and the map knows no others. */
  ghost predicate Pointed<X>(links: seq<X>, order: seq<Generation>, at: map<Generation, X>) {
    && |links| == |order| && Distinct(order)
    && (forall i :: 0 <= i < |order| ==> order[i] in at && at[order[i]] == links[i])
    && (forall g :: g in at ==> g in order)
  }

  lemma PointedBack<X>(links: seq<X>, order: seq<Generation>, at: map<Generation, X>, g: Generation, link: X)
    requires Pointed(links, order, at) && g !in at
    ensures Pointed(links + [link], order + [g], at[g := link])
  {
  }

  lemma CutElsewhere(order: seq<Generation>, k: nat, g: Generation)
    requires k < |order| && g in order && g != order[k]
    ensures g in Cut(order, k)
  {
    var i :| 0 <= i < |order| && order[i] == g;
    assert Cut(order, k)[if i < k then i else i - 1] == g;
  }

  lemma CutDistinct(order: seq<Generation>, k: nat)
    requires k < |order| && Distinct(order)
    ensures Distinct(Cut(order, k)) && order[k] !in Cut(order, k)
  {
    CutAt(order, k);
  }

  lemma PointedCut<X>(links: seq<X>, order: seq<Generation>, at: map<Generation, X>, k: nat)
    requires Pointed(links, order, at) && k < |order|
    ensures Pointed(Cut(links, k), Cut(order, k), at - {order[k]})
  {
    CutDistinct(order, k);
    CutAt(links, k);
    CutAt(order, k);
    forall g | g in at && g != order[k] ensures g in Cut(order, k) {
      CutElsewhere(order, k, g);
    }
  }

  lemma PointedWithout<X>(links: seq<X>, order: seq<Generation>, at: map<Generation, X>, g: Generation) returns (k: nat)
    requires Pointed(links, order, at) && g in at
    ensures k < |links| && links[k] == at[g] && Pointed(Cut(links, k), Without(order, g), at - {g})
  {
    k := WithoutIsCut(order, g);
    PointedCut(links, order, at, k);
  }

  /** A link belongs to one generation. */
  lemma PointedApart<X>(links: seq<X>, order: seq<Generation>, at: map<Generation, X>, g: Generation, h: Generation)
    requires Pointed(links, order, at) && Distinct(links) && g in at && h in at && g != h
    ensures at[g] != at[h]
  {
    var i :| 0 <= i < |order| && order[i] == g;
    var j :| 0 <= j < |order| && order[j] == h;
  }

  /** The retained generations, in order of their first pin. */
  class Retained {

    const list: Chain<Retention>
    var links: map<Generation, Link<Retention>>
    ghost var order: seq<Generation>
    ghost var table: map<Generation, Retention>
    ghost var repr: set<Link<Retention>>

    /** The list is made of links of its own. */
    ghost predicate Strung()
      reads this`repr, list, repr`prev, repr`next
    {
      (forall l :: l in list.links ==> l in repr) && list.Valid()
    }

    /** The links carry the retentions. */
    ghost predicate Holds()
      reads this`links, this`table, this`repr, repr`item
    {
      table.Keys == links.Keys && forall g :: g in links ==> links[g] in repr && links[g].item == table[g]
    }

    ghost predicate Valid()
      reads this, list, repr
    {
      var strung, pointed, held := Strung(), Pointed(list.links, order, links), Holds();
      strung && pointed && held
    }

    constructor ()
      ensures Valid() && order == [] && table == map[] && fresh(list) && repr == {}
    {
      list := new Chain();
      links, order, table, repr := map[], [], map[], {};
    }

    method Find(g: Generation) returns (r: Option<Retention>)
      requires Holds()
      ensures r == if g in table then Some(table[g]) else None
    {
      r := if g in links then Some(links[g].item) else None;
    }

    method Hang(link: Link<Retention>)
      requires Strung() && link in repr && link !in list.links
      modifies list, repr`prev, repr`next
      ensures Strung() && list.links == old(list.links) + [link]
    {
      list.PushBack(link);
    }

    method Unhang(link: Link<Retention>, ghost k: nat)
      requires Strung() && k < |list.links| && list.links[k] == link
      modifies list, repr`prev, repr`next
      ensures Strung() && list.links == Cut(old(list.links), k)
    {
      CutAt(list.links, k);
      list.Unlink(link, k);
    }

    /** A link for a generation that is not listed yet. */
    method Allot(g: Generation, retention: Retention)
      requires Strung() && Holds() && g !in table
      modifies this`links, this`table, this`repr
      ensures Strung() && Holds() && g in links && fresh(links[g]) && links == old(links)[g := links[g]]
      ensures repr == old(repr) + {links[g]} && table == old(table)[g := retention]
    {
      var link := new Link(retention);
      links := links[g := link];
      table, repr := table[g := retention], repr + {link};
    }

    /** List a generation last. */
    method Append(g: Generation, retention: Retention)
      requires Valid() && g !in table
      modifies this, list, repr`prev, repr`next
      ensures Valid() && order == old(order) + [g] && table == old(table)[g := retention] && fresh(repr - old(repr))
    {
      Allot(g, retention);
      PointedBack(list.links, order, old(links), g, links[g]);
      Hang(links[g]);
      order := order + [g];
    }

    method Update(g: Generation, retention: Retention)
      requires Valid() && g in table
      modifies this`table, repr`item
      ensures Valid() && table == old(table)[g := retention]
    {
      forall h | h in links && h != g ensures links[h] != links[g] {
        PointedApart(list.links, order, links, g, h);
      }
      links[g].item := retention;
      table := table[g := retention];
    }

    method Discharge(g: Generation)
      requires Holds()
      modifies this`links, this`table
      ensures Holds() && links == old(links) - {g} && table == old(table) - {g}
    {
      links := links - {g};
      table := table - {g};
    }

    /** Take the link of a generation off the list, wherever it is. */
    method Unlist(g: Generation)
      requires Strung() && Pointed(list.links, order, links) && g in links
      modifies this`order, list, repr`prev, repr`next
      ensures Strung() && order == Without(old(order), g)
      ensures var pointed := Pointed(list.links, order, links - {g}); pointed
    {
      ghost var k := PointedWithout(list.links, order, links, g);
      order := Without(order, g);
      Unhang(links[g], k);
    }

    method Remove(g: Generation)
      requires Valid() && g in table
      modifies this`links, this`order, this`table, list, repr`prev, repr`next
      ensures Valid() && order == Without(old(order), g) && table == old(table) - {g}
    {
      Unlist(g);
      Discharge(g);
    }

    /** When the longest retained generation was first pinned. */
    method Oldest(ghost clock: nat) returns (r: Option<nat>)
      requires Valid() && Listed(order, table, clock)
      ensures r.None? <==> table == map[]
      ensures r.Some? ==> (exists g :: g in table && table[g].openedAt == r.value) && forall g :: g in table ==> r.value <= table[g].openedAt
    {
      if list.head == null {
        return None;
      }
      r := Some(list.head.item.openedAt);
      assert links[order[0]] == list.head;
      forall g | g in table ensures r.value <= table[g].openedAt {
        var i :| 0 <= i < |order| && order[i] == g;
      }
    }
  }

  /** One more reference. */
  function More(table: map<Generation, Retention>, g: Generation, size: nat, now: nat): map<Generation, Retention> {
    table[g := if g in table then table[g].(refs := table[g].refs + 1) else Retention(1, size, now)]
  }

  /** One reference less. */
  function Fewer(table: map<Generation, Retention>, g: Generation): map<Generation, Retention>
    requires g in table && table[g].refs > 0
  {
    if table[g].refs <= 1 then table - {g} else table[g := table[g].(refs := table[g].refs - 1)]
  }

  lemma FirstPin(table: map<Generation, Retention>, g: Generation, r: Retention)
    requires g !in table && r.refs == 1
    ensures table[g := r] == More(table, g, r.bytes, r.openedAt)
  {
    assert r == Retention(1, r.bytes, r.openedAt);
  }

  lemma AnotherPin(table: map<Generation, Retention>, g: Generation, r: Retention, size: nat, now: nat)
    requires g in table && r == table[g].(refs := table[g].refs + 1)
    ensures table[g := r] == More(table, g, size, now)
  {
  }

  lemma OnePinLess(table: map<Generation, Retention>, g: Generation, r: Retention)
    requires g in table && table[g].refs > 1 && r == table[g].(refs := table[g].refs - 1)
    ensures table[g := r] == Fewer(table, g)
  {
  }

  lemma AdmitIs(p: Pins, g: Generation, size: nat, snapshot: bool, q: Pins)
    requires q.leases == p.leases[p.nextLease := Lease(g, snapshot)] && q.nextLease == p.nextLease + 1
    requires q.retentions == More(p.retentions, g, size, p.clock) && q.order == (if g in p.retentions then p.order else p.order + [g])
    requires q.retained == (if g in p.retentions then p.retained else p.retained + size)
    requires q.active == p.active + 1 && q.snapshots == p.snapshots + (if snapshot then 1 else 0) && q.clock == p.clock + 1
    ensures q == Admit(p, g, size, snapshot)
  {
  }

  lemma DropIs(p: Pins, l: nat, q: Pins)
    requires Releasable(p, l)
    requires q.leases == p.leases - {l} && q.nextLease == p.nextLease && q.retentions == Fewer(p.retentions, p.leases[l].generation)
    requires q.order == (if LastRef(p, l) then Without(p.order, p.leases[l].generation) else p.order)
    requires q.retained == p.retained - (if LastRef(p, l) then p.retentions[p.leases[l].generation].bytes else 0)
    requires q.active == p.active - 1 && q.snapshots == p.snapshots - (if p.leases[l].snapshot then 1 else 0) && q.clock == p.clock
    ensures q == Drop(p, l)
  {
  }

  lemma ReadIsPin(s: State, limits: Limits)
    requires PinReply(s, limits).Granted?
    ensures Next(s, limits, Generations.BeginRead) == Pin(s.(readers := s.readers + {s.pins.nextLease}, activeTx := s.activeTx + 1), false)
  {
  }

  /** The pages once a lease is about to go. */
  ghost function Closing(s: State, l: nat): State
    requires l in s.pins.leases
  {
    var g := s.pins.leases[l].generation;
    if LastRef(s.pins, l) && g != s.current then s.(pages := Rollback(s.pages, g)) else s
  }

  lemma FinishIsUnpin(s: State, limits: Limits, l: nat)
    requires l in s.readers && l in s.pins.leases && s.activeTx > 0
    ensures Next(s, limits, Generations.FinishRead(l)) == Unpin(s.(readers := s.readers - {l}, activeTx := s.activeTx - 1), l)
  {
  }

  lemma ReleaseIsUnpin(s: State, limits: Limits, l: nat)
    requires l in s.pins.leases && s.pins.leases[l].snapshot
    ensures Next(s, limits, Generations.Release(l)) == Unpin(s, l)
  {
  }

  /** The lease table. */
  class Leases {

    const held: Retained
    var leases: map<nat, Lease>
    var nextLease: nat
    var retained: nat
    var active: nat
    var snapshots: nat
    var clock: nat

    ghost function View(): Pins
      reads this, held
    {
      Pins(leases, nextLease, held.table, held.order, retained, active, snapshots, clock)
    }

    ghost predicate Valid()
      reads held, held.list, held.repr
    {
      var ok := held.Valid();
      ok
    }

    constructor ()
      ensures Valid() && View() == Pins(map[], 0, map[], [], 0, 0, 0, 0) && fresh(held) && fresh(held.list) && held.repr == {}
    {
      held := new Retained();
      leases, nextLease, retained, active, snapshots, clock := map[], 0, 0, 0, 0, 0;
    }

    /** Why the next lease on a generation of this size is refused, if it is. */
    method Check(limits: Limits, g: Generation, size: nat) returns (r: Outcome)
      requires Valid()
      ensures r == Refusal(View(), limits, g, size)
    {
      if size == 0 {
        return Failed(SizeUnavailable);
      }
      if limits.leases != 0 && active >= limits.leases {
        return Failed(LeaseLimit);
      }
      var retention := held.Find(g);
      if retention.None? {
        if size > MAX_UINT64 - retained {
          return Failed(ByteOverflow);
        }
        if limits.bytes != 0 && (size > limits.bytes || retained > limits.bytes - size) {
          return Failed(ByteLimit);
        }
      }
      r := Done;
    }

    /** Count a reference to a generation, which is listed as retained if it is not yet. */
    method Retain(g: Generation, first: bool, size: nat, now: nat)
      requires Valid() && first == (g !in held.table)
      modifies held, held.list, held.repr
      ensures Valid() && fresh(held.repr - old(held.repr)) && held.table == More(old(held.table), g, size, now)
      ensures held.order == if first then old(held.order) + [g] else old(held.order)
    {
      if first {
        var retention := Retention(1, size, now);
        FirstPin(held.table, g, retention);
        held.Append(g, retention);
      } else {
        var retention := held.Find(g);
        var more := retention.value.(refs := retention.value.refs + 1);
        AnotherPin(held.table, g, more, size, now);
        held.Update(g, more);
      }
    }

    /** Number a new lease and count it. */
    method Book(lease: Lease, bytes: nat)
      modifies this
      ensures leases == old(leases)[old(nextLease) := lease] && nextLease == old(nextLease) + 1 && clock == old(clock) + 1
      ensures active == old(active) + 1 && snapshots == old(snapshots) + (if lease.snapshot then 1 else 0)
      ensures retained == old(retained) + bytes
    {
      retained := retained + bytes;
      active := active + 1;
      if lease.snapshot {
        snapshots := snapshots + 1;
      }
      leases := leases[nextLease := lease];
      nextLease := nextLease + 1;
      clock := clock + 1;
    }

    /** Pin a generation by a new lease. */
    method Add(g: Generation, size: nat, snapshot: bool)
      requires Valid()
      modifies this, held, held.list, held.repr
      ensures Valid() && fresh(held.repr - old(held.repr)) && View() == Admit(old(View()), g, size, snapshot)
    {
      var pinned := IsPinned(g);
      Retain(g, !pinned, size, clock);
      Book(Lease(g, snapshot), if pinned then 0 else size);
      AdmitIs(old(View()), g, size, snapshot, View());
    }

    /** Take one reference off a generation; the last one unlists it. */
    method Unretain(g: Generation, last: bool)
      requires Valid() && g in held.table && held.table[g].refs > 0 && last == (held.table[g].refs <= 1)
      modifies held, held.list, held.repr
      ensures Valid() && held.repr == old(held.repr) && held.table == Fewer(old(held.table), g)
      ensures held.order == if last then Without(old(held.order), g) else old(held.order)
    {
      if last {
        held.Remove(g);
      } else {
        var retention := held.Find(g);
        var fewer := retention.value.(refs := retention.value.refs - 1);
        OnePinLess(held.table, g, fewer);
        held.Update(g, fewer);
      }
    }

    /** Strike a lease and what it counted for. */
    method Strike(l: nat, bytes: nat)
      requires l in leases && active > 0 && (leases[l].snapshot ==> snapshots > 0) && bytes <= retained
      modifies this
      ensures leases == old(leases) - {l} && nextLease == old(nextLease) && clock == old(clock)
      ensures active == old(active) - 1 && snapshots == old(snapshots) - (if old(leases)[l].snapshot then 1 else 0)
      ensures retained == old(retained) - bytes
    {
      retained := retained - bytes;
      active := active - 1;
      if leases[l].snapshot {
        snapshots := snapshots - 1;
      }
      leases := leases - {l};
    }

    /** Give up a lease that is still active. */
    method Give(l: nat)
      requires Valid() && Releasable(View(), l)
      modifies this, held, held.list, held.repr
      ensures Valid() && held.repr == old(held.repr) && View() == Drop(old(View()), l)
    {
      var g := leases[l].generation;
      var retention := held.Find(g);
      var last := retention.value.refs == 1;
      Unretain(g, last);
      Strike(l, if last then retention.value.bytes else 0);
      DropIs(old(View()), l, View());
    }

    /** Is this the last lease on its generation? */
    method IsLast(l: nat) returns (last: bool)
      requires Valid() && l in leases
      ensures last <==> LastRef(View(), l)
    {
      var retention := held.Find(leases[l].generation);
      last := retention.Some? && retention.value.refs <= 1;
    }

    method IsPinned(g: Generation) returns (pinned: bool)
      requires Valid()
      ensures pinned <==> g in View().retentions
    {
      var retention := held.Find(g);
      pinned := retention.Some?;
    }
  }

  class Database {

    const limits: Limits
    const pins: Leases

    // Page store.
    var pageNext: nat
    var sizes: seq<nat>
    var open: set<Generation>
    var shut: set<Generation>
    var faults: nat

    var graph: Generation
    var readers: set<nat>
    var writer: bool
    var activeTx: nat
    var closed: bool

    ghost function Pagings(): Pages reads this { Pages(pageNext, sizes, open, shut, faults) }

    /** The protocol state. */
    ghost function View(): State
      reads this, pins, pins.held
    {
      State(Pagings(), pins.View(), graph, readers, writer, activeTx, closed)
    }

    ghost predicate Valid()
      reads this, pins, pins.held, pins.held.list, pins.held.repr
    {
      var listed, consistent := pins.Valid(), Consistent(View(), limits);
      listed && consistent
    }

    constructor (limits: Limits, size: nat)
      ensures Valid() && this.limits == limits && View() == Opened(size)
      ensures fresh(pins) && fresh(pins.held) && fresh(pins.held.list) && pins.held.repr == {}
    {
      this.limits := limits;
      pins := new Leases();
      pageNext, sizes, open, shut, faults := 1, [size], {0}, {}, 0;
      graph, readers, writer, activeTx, closed := 0, {}, false, 0, false;
      new;
      OpenedConsistent(size, limits);
    }

    method RollbackPage(g: Generation)
      modifies this`open, this`shut, this`faults
      ensures Pagings() == Rollback(old(Pagings()), g)
    {
      if g in open {
        open := open - {g};
        shut := shut + {g};
      } else {
        faults := faults + 1;
      }
    }

    method LoadPage(size: nat) returns (g: Generation)
      modifies this`pageNext, this`sizes, this`open
      ensures g == old(pageNext) && Pagings() == Load(old(Pagings()), size)
    {
      g := pageNext;
      sizes := sizes + [size];
      open := open + {g};
      pageNext := pageNext + 1;
    }

    /** May the current generation be pinned once more? */
    method Refused() returns (r: Outcome)
      requires graph < |sizes| && pins.Valid()
      ensures r == PinReply(View(), limits)
    {
      if closed {
        return Failed(DatabaseClosed);
      }
      r := pins.Check(limits, graph, sizes[graph]);
      if !r.Failed? {
        r := Granted(pins.nextLease);
      }
    }

    /** Pin the current generation. */
    method PinCurrent(snapshot: bool)
      requires graph < |sizes| && pins.Valid()
      modifies pins, pins.held, pins.held.list, pins.held.repr
      ensures pins.Valid() && fresh(pins.held.repr - old(pins.held.repr)) && View() == Pin(old(View()), snapshot)
    {
      pins.Add(graph, sizes[graph], snapshot);
    }

    method Join(l: nat)
      modifies this`readers, this`activeTx
      ensures View() == old(View().(readers := readers + {l}, activeTx := activeTx + 1))
    {
      readers := readers + {l};
      activeTx := activeTx + 1;
    }

    method Leave(l: nat)
      requires activeTx > 0
      modifies this`readers, this`activeTx
      ensures View() == old(View().(readers := readers - {l}, activeTx := activeTx - 1))
    {
      readers := readers - {l};
      activeTx := activeTx - 1;
    }

    method StartReader() returns (r: Outcome)
      requires graph < |sizes| && pins.Valid()
      modifies this`readers, this`activeTx, pins, pins.held, pins.held.list, pins.held.repr
      ensures pins.Valid() && fresh(pins.held.repr - old(pins.held.repr))
      ensures r == PinReply(old(View()), limits) && View() == Next(old(View()), limits, Generations.BeginRead)
    {
      r := Refused();
      if r.Granted? {
        ReadIsPin(View(), limits);
        Join(r.lease);
        PinCurrent(false);
      }
    }

    method BeginRead() returns (r: Outcome)
      requires Valid()
      modifies this, pins, pins.held, pins.held.list, pins.held.repr
      ensures Valid() && fresh(pins.held.repr - old(pins.held.repr))
      ensures r == Reply(old(View()), limits, Generations.BeginRead) && View() == Next(old(View()), limits, Generations.BeginRead)
    {
      StepConsistent(View(), limits, Generations.BeginRead);
      r := StartReader();
    }

    method StartSnapshot() returns (r: Outcome)
      requires graph < |sizes| && pins.Valid()
      modifies pins, pins.held, pins.held.list, pins.held.repr
      ensures pins.Valid() && fresh(pins.held.repr - old(pins.held.repr))
      ensures r == PinReply(old(View()), limits) && View() == Next(old(View()), limits, Snapshot)
    {
      r := Refused();
      if r.Granted? {
        PinCurrent(true);
      }
    }

    method TakeSnapshot() returns (r: Outcome)
      requires Valid()
      modifies pins, pins.held, pins.held.list, pins.held.repr
      ensures Valid() && fresh(pins.held.repr - old(pins.held.repr))
      ensures r == Reply(old(View()), limits, Snapshot) && View() == Next(old(View()), limits, Snapshot)
    {
      StepConsistent(View(), limits, Snapshot);
      r := StartSnapshot();
    }

    /** Close a generation that loses its last lease, unless it is current. */
    method CloseLast(l: nat)
      requires pins.Valid() && l in pins.leases
      modifies this`open, this`shut, this`faults
      ensures View() == old(Closing(View(), l))
    {
      var last := pins.IsLast(l);
      if last && pins.leases[l].generation != graph {
        RollbackPage(pins.leases[l].generation);
      }
    }

    method GiveUp(l: nat)
      requires pins.Valid() && Releasable(pins.View(), l)
      modifies pins, pins.held, pins.held.list, pins.held.repr
      ensures pins.Valid() && pins.held.repr == old(pins.held.repr) && View() == old(View().(pins := Drop(View().pins, l)))
    {
      pins.Give(l);
    }

    /** Give up a lease; the last one on a generation closes it unless it is current. */
    method Forget(l: nat)
      requires pins.Valid() && Releasable(pins.View(), l)
      modifies this`open, this`shut, this`faults, pins, pins.held, pins.held.list, pins.held.repr
      ensures pins.Valid() && pins.held.repr == old(pins.held.repr) && View() == Unpin(old(View()), l)
    {
      CloseLast(l);
      GiveUp(l);
    }

    method StopReader(l: nat)
      requires pins.Valid() && l in readers && Releasable(pins.View(), l) && activeTx > 0
      modifies this, pins, pins.held, pins.held.list, pins.held.repr
      ensures pins.Valid() && pins.held.repr == old(pins.held.repr) && View() == Next(old(View()), limits, Generations.FinishRead(l))
    {
      FinishIsUnpin(View(), limits, l);
      Leave(l);
      Forget(l);
    }

    /** Finishing a transaction twice changes nothing. */
    method FinishRead(l: nat)
      requires Valid()
      modifies this, pins, pins.held, pins.held.list, pins.held.repr
      ensures Valid() && pins.held.repr == old(pins.held.repr) && View() == Next(old(View()), limits, Generations.FinishRead(l))
    {
      StepConsistent(View(), limits, Generations.FinishRead(l));
      if l in readers {
        CanRelease(View(), limits, l);
        StopReader(l);
      }
    }

    method DropSnapshot(l: nat)
      requires pins.Valid() && Releasable(pins.View(), l) && pins.leases[l].snapshot
      modifies this`open, this`shut, this`faults, pins, pins.held, pins.held.list, pins.held.repr
      ensures pins.Valid() && pins.held.repr == old(pins.held.repr) && View() == Next(old(View()), limits, Generations.Release(l))
    {
      ReleaseIsUnpin(View(), limits, l);
      Forget(l);
    }

    /** Releasing a lease again changes nothing. */
    method Release(l: nat)
      requires Valid()
      modifies this`open, this`shut, this`faults, pins, pins.held, pins.held.list, pins.held.repr
      ensures Valid() && pins.held.repr == old(pins.held.repr) && View() == Next(old(View()), limits, Generations.Release(l))
    {
      StepConsistent(View(), limits, Generations.Release(l));
      if l in pins.leases && pins.leases[l].snapshot {
        CanRelease(View(), limits, l);
        DropSnapshot(l);
      }
    }

    method StartWriter() returns (r: Outcome)
      modifies this`writer, this`activeTx
      ensures r == Reply(old(View()), limits, Generations.BeginWrite) && View() == Next(old(View()), limits, Generations.BeginWrite)
    {
      if closed {
        return Failed(DatabaseClosed);
      }
      if writer {
        return Failed(WriterBusy);
      }
      writer, activeTx := true, activeTx + 1;
      r := Done;
    }

    method BeginWrite() returns (r: Outcome)
      requires Valid()
      modifies this`writer, this`activeTx
      ensures Valid() && r == Reply(old(View()), limits, Generations.BeginWrite) && View() == Next(old(View()), limits, Generations.BeginWrite)
    {
      StepConsistent(View(), limits, Generations.BeginWrite);
      r := StartWriter();
    }

    method StopWriter()
      requires writer ==> activeTx > 0
      modifies this`writer, this`activeTx
      ensures View() == Next(old(View()), limits, Generations.FinishWrite)
    {
      if writer {
        writer, activeTx := false, activeTx - 1;
      }
    }

    method FinishWrite()
      requires Valid()
      modifies this`writer, this`activeTx
      ensures Valid() && View() == Next(old(View()), limits, Generations.FinishWrite)
    {
      StepConsistent(View(), limits, Generations.FinishWrite);
      StopWriter();
    }

    /** Replace the current generation after a write to the page file. */
    method SwitchGeneration(size: nat, grown: bool)
      requires pins.Valid()
      modifies this`graph, this`pageNext, this`sizes, this`open, this`shut, this`faults
      ensures View() == Switch(old(View()), size, grown)
    {
      var pinned := pins.IsPinned(graph);
      if !pinned {
        RollbackPage(graph);
      }
      if grown || !pinned {
        graph := LoadPage(size);
      }
    }

    method CommitSwitch(size: nat, grown: bool)
      requires pins.Valid() && writer
      modifies this`graph, this`pageNext, this`sizes, this`open, this`shut, this`faults
      ensures View() == Next(old(View()), limits, Generations.Commit(size, grown))
    {
      SwitchGeneration(size, grown);
    }

    method Commit(size: nat, grown: bool)
      requires Valid() && writer
      modifies this`graph, this`pageNext, this`sizes, this`open, this`shut, this`faults
      ensures Valid() && View() == Next(old(View()), limits, Generations.Commit(size, grown))
    {
      StepConsistent(View(), limits, Generations.Commit(size, grown));
      CommitSwitch(size, grown);
    }

    method RebuildSwitch(size: nat, grown: bool) returns (r: Outcome)
      requires pins.Valid()
      modifies this`graph, this`pageNext, this`sizes, this`open, this`shut, this`faults
      ensures r == Reply(old(View()), limits, Generations.Rebuild(size, grown)) && View() == Next(old(View()), limits, Generations.Rebuild(size, grown))
    {
      if closed {
        return Failed(DatabaseClosed);
      }
      if writer {
        return Failed(WriterBusy);
      }
      SwitchGeneration(size, grown);
      r := Done;
    }

    method Rebuild(size: nat, grown: bool) returns (r: Outcome)
      requires Valid()
      modifies this`graph, this`pageNext, this`sizes, this`open, this`shut, this`faults
      ensures Valid() && r == Reply(old(View()), limits, Generations.Rebuild(size, grown)) && View() == Next(old(View()), limits, Generations.Rebuild(size, grown))
    {
      StepConsistent(View(), limits, Generations.Rebuild(size, grown));
      r := RebuildSwitch(size, grown);
    }

    /** Without transactions and leases nothing is pinned, so that the current generation is closed
        without asking. */
    method ReplaceAll(size: nat) returns (r: Outcome)
      requires pins.active == 0 ==> graph !in pins.held.table
      modifies this`graph, this`pageNext, this`sizes, this`open, this`shut, this`faults
      ensures r == Reply(old(View()), limits, Generations.Compact(size)) && View() == Next(old(View()), limits, Generations.Compact(size))
    {
      if closed {
        return Failed(DatabaseClosed);
      }
      if activeTx != 0 || pins.active != 0 {
        return Failed(TransactionsActive);
      }
      RollbackPage(graph);
      graph := LoadPage(size);
      r := Done;
    }

    /** Compaction excludes every transaction and lease before it closes the current generation. */
    method Compact(size: nat) returns (r: Outcome)
      requires Valid()
      modifies this`graph, this`pageNext, this`sizes, this`open, this`shut, this`faults
      ensures Valid() && r == Reply(old(View()), limits, Generations.Compact(size)) && View() == Next(old(View()), limits, Generations.Compact(size))
    {
      StepConsistent(View(), limits, Generations.Compact(size));
      if pins.active == 0 {
        NothingPinned(View(), limits);
      }
      r := ReplaceAll(size);
    }

    method Shut() returns (r: Outcome)
      modifies this`closed, this`open, this`shut, this`faults
      ensures r == Reply(old(View()), limits, Generations.Close) && View() == Next(old(View()), limits, Generations.Close)
    {
      if closed {
        return Done;
      }
      if activeTx != 0 {
        return Failed(TransactionsActive);
      }
      if pins.snapshots != 0 {
        return Failed(SnapshotActive);
      }
      closed := true;
      RollbackPage(graph);
      r := Done;
    }

    method Close() returns (r: Outcome)
      requires Valid()
      modifies this`closed, this`open, this`shut, this`faults
      ensures Valid() && r == Reply(old(View()), limits, Generations.Close) && View() == Next(old(View()), limits, Generations.Close)
    {
      StepConsistent(View(), limits, Generations.Close);
      r := Shut();
    }

    /** When the longest retained generation was first pinned: the head of the list tells. */
    method OldestLease() returns (r: Option<nat>)
      requires Valid()
      ensures r.None? <==> pins.leases == map[]
      ensures r.Some? ==> forall g :: g in pins.held.table ==> r.value <= pins.held.table[g].openedAt
      ensures r.Some? ==> exists g :: g in pins.held.table && pins.held.table[g].openedAt == r.value
    {
      LeasesRetain(View(), limits);
      r := pins.held.Oldest(pins.clock);
    }
  }

  /** Something is retained exactly while there are leases. */
  lemma LeasesRetain(s: State, limits: Limits)
    requires Consistent(s, limits)
    ensures s.pins.retentions == map[] <==> s.pins.leases == map[]
  {
    if l :| l in s.pins.leases {
      assert l in LeasesOf(s.pins.leases, s.pins.leases[l].generation);
    } else {
      forall g: nat ensures g !in s.pins.retentions { assert LeasesOf(s.pins.leases, g) == {}; }
    }
  }

  lemma NothingPinned(s: State, limits: Limits)
    requires Consistent(s, limits) && s.pins.active == 0
    ensures s.current !in s.pins.retentions
  {
    assert s.pins.leases == map[];
    assert LeasesOf(s.pins.leases, s.current) == {};
  }

  /** The counters do not run below zero when this lease is released. */
  ghost predicate Releasable(p: Pins, l: nat) {
    && l in p.leases && p.leases[l].generation in p.retentions
    && p.retentions[p.leases[l].generation].refs > 0 && p.retentions[p.leases[l].generation].bytes <= p.retained
    && p.active > 0 && (p.leases[l].snapshot ==> p.snapshots > 0)
  }

  lemma CanRelease(s: State, limits: Limits, l: nat)
    requires Consistent(s, limits) && l in s.pins.leases
    ensures Releasable(s.pins, l) && (l in s.readers ==> s.activeTx > 0)
  {
    DropCounted(s.pins.leases, s.pins.retentions, l);
    DropSnapshots(s.pins.leases, l);
    BytesWithout(s.pins.retentions, s.pins.order, s.pins.leases[l].generation);
    if l in s.readers { assert |s.readers| > 0; }
  }
}
