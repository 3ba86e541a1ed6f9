/** Links of the vector graph: which lists are in order, how the diversity heuristic chooses them,
    and what a newcomer does to the lists of its neighbours. */
module VectorLinks {
  import opened Orders
  import Sums
  import opened VectorGraph
  import opened VectorSearch

  const CONSTRUCTION_EF: nat := 200

  function MaxLinks(m: nat, level: nat): nat {
    if level == 0 then 2 * m else m
  }

  /** A node whose record is not written yet: links at levels from..level may already name it. */
  datatype Pending = Pending(id: Id, level: nat, from: nat)

  const NOBODY := Pending(0, 0, 1)

  ghost predicate Target(g: Graph, l: nat, n: Id, p: Pending) {
    (n in g && g[n].level >= l) || (n == p.id && p.from <= l <= p.level)
  }

  ghost predicate LinksOk(g: Graph, m: nat, id: Id, l: nat, links: seq<Id>, p: Pending) {
    && |links| <= MaxLinks(m, l) && Distinct(links)
    && forall i :: 0 <= i < |links| ==> links[i] != id && Target(g, l, links[i], p)
  }

  ghost predicate NodeOk(g: Graph, m: nat, id: Id, node: Node, p: Pending) {
    && |node.neighbors| == node.level + 1
    && forall l :: 0 <= l <= node.level ==> LinksOk(g, m, id, l, node.neighbors[l], p)
  }

  ghost predicate GraphOk(g: Graph, m: nat, p: Pending) {
    forall id :: id in g ==> NodeOk(g, m, id, g[id], p)
  }

  /** Two graphs that differ in links only. */
  ghost predicate SameRecords(a: Graph, b: Graph) {
    && a.Keys == b.Keys
    && forall id :: id in a ==> b[id].level == a[id].level && b[id].vector == a[id].vector && b[id].deleted == a[id].deleted
  }

  /** Links not yet written are invisible below the level that writes them. */
  lemma ClosedBelowPending(g: Graph, m: nat, p: Pending, level: nat)
    requires GraphOk(g, m, p) && (level < p.from || (p.id in g && p.level <= g[p.id].level))
    ensures LevelClosed(g, level)
    ensures forall id :: id in g && level <= g[id].level ==> HasLevel(g, id, level)
  {
    forall id | HasLevel(g, id, level) ensures LinksHave(g, level, g[id].neighbors[level]) {
      assert LinksOk(g, m, id, level, g[id].neighbors[level], p);
    }
  }

  lemma LinksShape(a: Graph, b: Graph, m: nat, id: Id, l: nat, links: seq<Id>, p: Pending)
    requires SameRecords(a, b) && LinksOk(a, m, id, l, links, p)
    ensures LinksOk(b, m, id, l, links, p)
  {
  }

  /** Replacing one link list by a good one keeps the graph good. */
  lemma RelinkKeeps(g: Graph, m: nat, p: Pending, id: Id, level: nat, links: seq<Id>)
    requires GraphOk(g, m, p) && id in g && level <= g[id].level && LinksOk(g, m, id, level, links, p)
    ensures level < |g[id].neighbors|
    ensures var h := g[id := g[id].(neighbors := g[id].neighbors[level := links])];
            GraphOk(h, m, p) && SameRecords(g, h)
  {
    var h := g[id := g[id].(neighbors := g[id].neighbors[level := links])];
    forall x | x in h ensures NodeOk(h, m, x, h[x], p) {
      forall l | 0 <= l <= h[x].level ensures LinksOk(h, m, x, l, h[x].neighbors[l], p) {
        if x == id && l == level {
          LinksShape(g, h, m, id, l, links, p);
        } else {
          assert LinksOk(g, m, x, l, g[x].neighbors[l], p);
          LinksShape(g, h, m, x, l, g[x].neighbors[l], p);
        }
      }
    }
  }

  lemma Weaken(g: Graph, m: nat, p: Pending, q: Pending)
    requires GraphOk(g, m, p)
    requires p.from > p.level || (q.id == p.id && q.level >= p.level && q.from <= p.from)
    ensures GraphOk(g, m, q)
  {
    forall x | x in g ensures NodeOk(g, m, x, g[x], q) {
      forall l | 0 <= l <= g[x].level ensures LinksOk(g, m, x, l, g[x].neighbors[l], q) {
        assert LinksOk(g, m, x, l, g[x].neighbors[l], p);
      }
    }
  }

  lemma LinksWeaken(g: Graph, m: nat, id: Id, l: nat, links: seq<Id>, p: Pending, q: Pending)
    requires LinksOk(g, m, id, l, links, p) && p.id == id
    ensures LinksOk(g, m, id, l, links, q)
  {
  }

  /** Writing the pending record, with its own links in order, completes the graph. */
  lemma WriteKeeps(g: Graph, m: nat, p: Pending, node: Node)
    requires GraphOk(g, m, p) && node.level == p.level && |node.neighbors| == node.level + 1
    requires p.id in g ==> g[p.id].level == p.level
    requires forall l :: 0 <= l <= node.level ==> LinksOk(g, m, p.id, l, node.neighbors[l], p)
    ensures GraphOk(g[p.id := node], m, NOBODY)
  {
    var h := g[p.id := node];
    forall x | x in h ensures NodeOk(h, m, x, h[x], NOBODY) {
      forall l | 0 <= l <= h[x].level ensures LinksOk(h, m, x, l, h[x].neighbors[l], NOBODY) {
        assert LinksOk(g, m, x, l, h[x].neighbors[l], p);
      }
    }
  }

  lemma CountsBoundDistinct<T>(s: seq<T>, all: seq<T>)
    requires multiset(s) <= multiset(all) && Distinct(all)
    ensures Distinct(s)
  {
    forall i, j | 0 <= i < j < |s| ensures s[i] != s[j] {
      if s[i] == s[j] {
        Sums.Twice(s, i, j);
        Once(all, s[i]);
      }
    }
  }

  lemma {:induction false} Once<T>(s: seq<T>, x: T)
    requires Distinct(s)
    ensures multiset(s)[x] <= 1
  {
    if s != [] {
      Once(s[1..], x);
      assert s == [s[0]] + s[1..];
      if s[0] == x {
        assert x !in s[1..];
        assert x !in multiset(s[1..]);
      }
    }
  }

  function Ids(s: seq<Candidate>): (ids: seq<Id>)
    ensures |ids| == |s| && forall i :: 0 <= i < |s| ==> ids[i] == s[i].id
  {
    seq(|s|, i requires 0 <= i < |s| => s[i].id)
  }

  /** The vectors of all records, with overrides. */
  function Vectors(g: Graph, extra: map<Id, Vector>): map<Id, Vector> {
    (map id | id in g :: g[id].vector) + extra
  }

  function VectorOf(vectors: map<Id, Vector>, id: Id): Vector { if id in vectors then vectors[id] else [] }

  ghost predicate Known(vectors: map<Id, Vector>, s: seq<Candidate>) {
    forall i :: 0 <= i < |s| ==> s[i].id in vectors
  }

  /** What a selection depends on. */
  datatype Choosing = Choosing(vectors: map<Id, Vector>, dist: Metric, candidates: seq<Candidate>)

  predicate Shadows(s: Choosing, x: Candidate, y: Candidate) {
    s.dist(VectorOf(s.vectors, y.id), VectorOf(s.vectors, x.id)) <= y.distance
  }

  /** A candidate is chosen for diversity when no earlier chosen one is at least as near to it as the
      base point is. */
  predicate Chosen(s: Choosing, i: nat)
    requires i < |s.candidates|
    decreases i
  {
    forall j :: 0 <= j < i && Chosen(s, j) ==> !Shadows(s, s.candidates[j], s.candidates[i])
  }

  /** The chosen candidates among the first n, or the others, in order. */
  function Picked(s: Choosing, n: nat, chosen: bool): seq<Candidate>
    requires n <= |s.candidates|
  {
    if n == 0 then [] else Picked(s, n - 1, chosen) + if Chosen(s, n - 1) == chosen then [s.candidates[n - 1]] else []
  }

  /** The selection: chosen candidates, filled up in order with the shadowed ones. */
  function Choice(s: Choosing, limit: nat): seq<Candidate> {
    var kept, rest := Picked(s, |s.candidates|, true), Picked(s, |s.candidates|, false);
    if |kept| >= limit then kept[..limit]
    else kept + rest[..if limit - |kept| < |rest| then limit - |kept| else |rest|]
  }

  /** Does some selected vector sit at most as far from the candidate as the base point does? */
  method Shadowed(s: Choosing, selected: seq<Candidate>, x: Candidate) returns (b: bool)
    ensures b <==> exists i :: 0 <= i < |selected| && Shadows(s, selected[i], x)
  {
    for i := 0 to |selected|
      invariant forall j :: 0 <= j < i ==> !Shadows(s, selected[j], x)
    {
      if Shadows(s, selected[i], x) {
        return true;
      }
    }
    return false;
  }

  lemma {:induction false} PickedFrom(s: Choosing, n: nat, k: nat) returns (j: nat)
    requires n <= |s.candidates| && k < |Picked(s, n, true)|
    ensures j < n && Chosen(s, j) && s.candidates[j] == Picked(s, n, true)[k]
    decreases n
  {
    if k < |Picked(s, n - 1, true)| {
      j := PickedFrom(s, n - 1, k);
    } else {
      j := n - 1;
    }
  }

  lemma {:induction false} PickedHas(s: Choosing, n: nat, j: nat) returns (k: nat)
    requires n <= |s.candidates| && j < n && Chosen(s, j)
    ensures k < |Picked(s, n, true)| && Picked(s, n, true)[k] == s.candidates[j]
    decreases n
  {
    if j < n - 1 {
      k := PickedHas(s, n - 1, j);
    } else {
      k := |Picked(s, n - 1, true)|;
    }
  }

  /** Comparing with the candidates chosen so far decides whether the next one is chosen. */
  lemma ChosenByPicked(s: Choosing, n: nat)
    requires n < |s.candidates|
    ensures Chosen(s, n) <==> forall k :: 0 <= k < |Picked(s, n, true)| ==> !Shadows(s, Picked(s, n, true)[k], s.candidates[n])
  {
    var picked := Picked(s, n, true);
    if Chosen(s, n) {
      forall k | 0 <= k < |picked| ensures !Shadows(s, picked[k], s.candidates[n]) { var j := PickedFrom(s, n, k); }
    } else {
      var j :| 0 <= j < n && Chosen(s, j) && Shadows(s, s.candidates[j], s.candidates[n]);
      var k := PickedHas(s, n, j);
    }
  }

  lemma {:induction false} PickedGrows(s: Choosing, n: nat, m: nat, chosen: bool)
    requires n <= m <= |s.candidates|
    ensures Picked(s, n, chosen) <= Picked(s, m, chosen)
    decreases m
  {
    if n < m { PickedGrows(s, n, m - 1, chosen); }
  }

  /** The diversity heuristic stops as soon as enough candidates are chosen. */
  method SelectNeighbors(g: Graph, dist: Metric, candidates: seq<Candidate>, limit: nat, extra: map<Id, Vector>) returns (r: Result<seq<Candidate>>)
    requires 1 <= limit <= 128
    ensures Known(Vectors(g, extra), candidates) ==> r.Ok?
    ensures r.Ok? ==> r.value == Choice(Choosing(Vectors(g, extra), dist, candidates), limit)
  {
    var s := Choosing(Vectors(g, extra), dist, candidates);
    var selected: seq<Candidate> := [];
    var rejected: seq<Candidate> := [];
    var n := 0;
    while n < |candidates| && |selected| < limit
      invariant 0 <= n <= |candidates| && |selected| <= limit
      invariant selected == Picked(s, n, true) && rejected == Picked(s, n, false)
    {
      var x := candidates[n];
      if x.id !in s.vectors {
        return Err(MissingNode(x.id));
      }
      ChosenByPicked(s, n);
      var shadowed := Shadowed(s, selected, x);
      if shadowed {
        rejected := rejected + [x];
      } else {
        selected := selected + [x];
      }
      n := n + 1;
    }
    PickedGrows(s, n, |candidates|, true);
    var fill := if limit - |selected| < |rejected| then limit - |selected| else |rejected|;
    FilledUp(s, limit, n, fill);
    r := Ok(selected + rejected[..fill]);
  }

  lemma FilledUp(s: Choosing, limit: nat, n: nat, fill: nat)
    requires n <= |s.candidates| && Picked(s, n, true) <= Picked(s, |s.candidates|, true) && |Picked(s, n, true)| <= limit
    requires n == |s.candidates| || |Picked(s, n, true)| == limit
    requires var rest := Picked(s, n, false); fill == (if limit - |Picked(s, n, true)| < |rest| then limit - |Picked(s, n, true)| else |rest|)
    ensures Picked(s, n, true) + Picked(s, n, false)[..fill] == Choice(s, limit)
  {
  }

  /** Chosen or not, every candidate is picked. */
  ghost function AllPicked(s: Choosing, n: nat): multiset<Candidate>
    requires n <= |s.candidates|
  {
    multiset(Picked(s, n, true)) + multiset(Picked(s, n, false))
  }

  lemma PickedOne(s: Choosing, n: nat)
    requires n < |s.candidates|
    ensures AllPicked(s, n + 1) == AllPicked(s, n) + multiset{s.candidates[n]}
  {
    if Chosen(s, n) {
      assert Picked(s, n + 1, true) == Picked(s, n, true) + [s.candidates[n]] && Picked(s, n + 1, false) == Picked(s, n, false);
    } else {
      assert Picked(s, n + 1, false) == Picked(s, n, false) + [s.candidates[n]] && Picked(s, n + 1, true) == Picked(s, n, true);
    }
  }

  lemma {:induction false} PickedElements(s: Choosing, n: nat)
    requires n <= |s.candidates|
    ensures AllPicked(s, n) == multiset(s.candidates[..n])
  {
    if n > 0 {
      PickedElements(s, n - 1);
      PickedOne(s, n - 1);
      PrefixPlus(s.candidates, n - 1);
    }
  }

  lemma PartOfWhole(a: seq<Candidate>, n: nat)
    requires n <= |a|
    ensures multiset(a[..n]) <= multiset(a)
  {
    assert a == a[..n] + a[n..];
  }

  /** How many of the chosen candidates, and how many of the others, a selection takes. */
  function Kept(s: Choosing, limit: nat): (n: nat)
    ensures n <= |Picked(s, |s.candidates|, true)| && n <= limit
  {
    var n := |Picked(s, |s.candidates|, true)|;
    if n < limit then n else limit
  }

  function Filled(s: Choosing, limit: nat): (n: nat)
    ensures n <= |Picked(s, |s.candidates|, false)| && Kept(s, limit) + n <= limit
  {
    var n := |Picked(s, |s.candidates|, false)|;
    if n < limit - Kept(s, limit) then n else limit - Kept(s, limit)
  }

  lemma ChoiceParts(s: Choosing, limit: nat)
    ensures Choice(s, limit) == Picked(s, |s.candidates|, true)[..Kept(s, limit)] + Picked(s, |s.candidates|, false)[..Filled(s, limit)]
  {
  }

  lemma PickedSize(s: Choosing)
    ensures |Picked(s, |s.candidates|, true)| + |Picked(s, |s.candidates|, false)| == |s.candidates|
  {
    var n := |s.candidates|;
    var kept, rest := Picked(s, n, true), Picked(s, n, false);
    PickedElements(s, n);
    assert s.candidates[..n] == s.candidates;
    assert |multiset(kept)| == |kept| && |multiset(rest)| == |rest| && |multiset(s.candidates)| == n;
  }

  lemma PartsOfWhole(a: seq<Candidate>, b: seq<Candidate>, i: nat, j: nat)
    requires i <= |a| && j <= |b|
    ensures multiset(a[..i] + b[..j]) <= multiset(a) + multiset(b)
  {
    PartOfWhole(a, i);
    PartOfWhole(b, j);
  }

  /** A selection takes as many candidates as fit, each at most once, the first among them. */
  lemma ChoiceIsSelection(s: Choosing, limit: nat)
    requires limit >= 1
    ensures |Choice(s, limit)| == (if |s.candidates| < limit then |s.candidates| else limit)
    ensures multiset(Choice(s, limit)) <= multiset(s.candidates)
    ensures s.candidates != [] ==> Choice(s, limit) != [] && Choice(s, limit)[0] == s.candidates[0]
  {
    var n := |s.candidates|;
    ChoiceParts(s, limit);
    PickedSize(s);
    PickedElements(s, n);
    assert s.candidates[..n] == s.candidates;
    PartsOfWhole(Picked(s, n, true), Picked(s, n, false), Kept(s, limit), Filled(s, limit));
    if n > 0 { FirstIsChosen(s); }
  }

  /** The candidates chosen for diversity, or the others, in distance order like the candidates. */
  lemma {:induction false} PickedSorted(s: Choosing, n: nat, chosen: bool)
    requires n <= |s.candidates| && Sorted(ByDistance(), s.candidates)
    ensures Sorted(ByDistance(), Picked(s, n, chosen))
    ensures forall k, i :: 0 <= k < |Picked(s, n, chosen)| && n <= i < |s.candidates| ==> Nearer(Picked(s, n, chosen)[k], s.candidates[i])
    decreases n
  {
    ByDistanceIsOrder();
    if n > 0 {
      PickedSorted(s, n - 1, chosen);
      forall i | n <= i < |s.candidates| ensures Nearer(s.candidates[n - 1], s.candidates[i]) { assert ByDistance()(s.candidates[n - 1], s.candidates[i]); }
      var before, after := Picked(s, n - 1, chosen), Picked(s, n, chosen);
      forall i, j | 0 <= i < j < |after| ensures ByDistance()(after[i], after[j]) {
        if j < |before| { assert ByDistance()(before[i], before[j]); }
      }
    }
  }

  lemma {:induction false} PickedOrigin(s: Choosing, n: nat, chosen: bool, k: nat) returns (i: nat)
    requires n <= |s.candidates| && k < |Picked(s, n, chosen)|
    ensures i < n && Chosen(s, i) == chosen && s.candidates[i] == Picked(s, n, chosen)[k] && Picked(s, i, chosen) == Picked(s, n, chosen)[..k]
    decreases n
  {
    var before := Picked(s, n - 1, chosen);
    if k < |before| {
      i := PickedOrigin(s, n - 1, chosen, k);
      assert Picked(s, n, chosen)[..k] == before[..k];
    } else {
      i := n - 1;
      assert Picked(s, n, chosen)[..k] == before;
    }
  }

  /** No chosen candidate is shadowed by one chosen before it. */
  lemma ChosenApart(s: Choosing, i: nat, j: nat)
    requires i < j < |Picked(s, |s.candidates|, true)|
    ensures var kept := Picked(s, |s.candidates|, true);
            s.dist(VectorOf(s.vectors, kept[j].id), VectorOf(s.vectors, kept[i].id)) > kept[j].distance
  {
    var kept, n := Picked(s, |s.candidates|, true), |s.candidates|;
    var b := PickedOrigin(s, n, true, j);
    ChosenByPicked(s, b);
    assert Picked(s, b, true)[i] == kept[i];
    assert !Shadows(s, kept[i], kept[j]);
  }

  /** Every other candidate is shadowed by a chosen one that comes before it. */
  lemma OtherIsShadowed(s: Choosing, j: nat) returns (i: nat)
    requires j < |Picked(s, |s.candidates|, false)|
    ensures var kept, other := Picked(s, |s.candidates|, true), Picked(s, |s.candidates|, false)[j];
            i < |kept| && s.dist(VectorOf(s.vectors, other.id), VectorOf(s.vectors, kept[i].id)) <= other.distance
  {
    var n := |s.candidates|;
    var b := PickedOrigin(s, n, false, j);
    var a :| 0 <= a < b && Chosen(s, a) && Shadows(s, s.candidates[a], s.candidates[b]);
    i := PickedHas(s, n, a);
  }

  /** What the heuristic promises: a diverse part that is as long as the limit allows, filled up with
      shadowed candidates only when it is complete; each part holds the nearest of its kind. */
  ghost predicate Diverse(s: Choosing, limit: nat, r: seq<Candidate>, kept: nat) {
    && kept <= |r| <= limit
    && (forall i, j :: 0 <= i < j < kept ==> s.dist(VectorOf(s.vectors, r[j].id), VectorOf(s.vectors, r[i].id)) > r[j].distance)
    && (forall j :: kept <= j < |r| ==> Rejected(s, r[..kept], r[j]))
    && Sorted(ByDistance(), r[..kept]) && Sorted(ByDistance(), r[kept..])
  }

  ghost predicate Rejected(s: Choosing, kept: seq<Candidate>, x: Candidate) {
    exists i :: 0 <= i < |kept| && s.dist(VectorOf(s.vectors, x.id), VectorOf(s.vectors, kept[i].id)) <= x.distance
  }

  lemma ChoiceIsDiverse(s: Choosing, limit: nat)
    requires Sorted(ByDistance(), s.candidates)
    ensures Diverse(s, limit, Choice(s, limit), Kept(s, limit))
  {
    var n, kept, fill := |s.candidates|, Kept(s, limit), Filled(s, limit);
    var a, b, r := Picked(s, n, true), Picked(s, n, false), Choice(s, limit);
    ChoiceParts(s, limit);
    assert r[..kept] == a[..kept] && r[kept..] == b[..fill];
    PickedSorted(s, n, true);
    PickedSorted(s, n, false);
    forall i, j | 0 <= i < j < kept ensures s.dist(VectorOf(s.vectors, r[j].id), VectorOf(s.vectors, r[i].id)) > r[j].distance {
      ChosenApart(s, i, j);
    }
    forall j | kept <= j < |r| ensures Rejected(s, r[..kept], r[j]) {
      var i := OtherIsShadowed(s, j - kept);
      assert r[..kept][i] == a[i] && r[j] == b[j - kept];
    }
  }

  /** A candidate left out is not nearer than anything taken of its kind: it is rejected and no nearer
      than the fillers, or it is no nearer than the whole diverse part. */
  lemma LeftOut(s: Choosing, limit: nat, y: Candidate)
    requires Sorted(ByDistance(), s.candidates) && y in s.candidates && y !in Choice(s, limit)
    ensures var r, kept := Choice(s, limit), Kept(s, limit);
            || (kept == limit && forall i :: 0 <= i < kept ==> Nearer(r[..kept][i], y))
            || (Rejected(s, Picked(s, |s.candidates|, true), y) && forall i :: 0 <= i < |r| - kept ==> Nearer(r[kept..][i], y))
  {
    var n, kept, fill := |s.candidates|, Kept(s, limit), Filled(s, limit);
    var a, b, r := Picked(s, n, true), Picked(s, n, false), Choice(s, limit);
    ChoiceParts(s, limit);
    assert r[..kept] == a[..kept] && r[kept..] == b[..fill];
    EveryoneIsPicked(s, y);
    if y in a {
      PickedSorted(s, n, true);
      PastPrefix(a, kept, y);
    } else {
      PickedSorted(s, n, false);
      PastPrefix(b, fill, y);
      OtherIsRejected(s, y);
    }
  }

  lemma EveryoneIsPicked(s: Choosing, y: Candidate)
    requires y in s.candidates
    ensures y in Picked(s, |s.candidates|, true) || y in Picked(s, |s.candidates|, false)
  {
    PickedElements(s, |s.candidates|);
    assert s.candidates[..|s.candidates|] == s.candidates;
    assert y in AllPicked(s, |s.candidates|);
  }

  lemma PastPrefix(a: seq<Candidate>, n: nat, y: Candidate)
    requires Sorted(ByDistance(), a) && n <= |a| && y in a && y !in a[..n]
    ensures forall i :: 0 <= i < n ==> Nearer(a[..n][i], y)
  {
    var k :| 0 <= k < |a| && a[k] == y;
    assert forall j :: 0 <= j < n ==> a[..n][j] == a[j];
    forall i | 0 <= i < n ensures Nearer(a[..n][i], y) { assert ByDistance()(a[i], a[k]); }
  }

  lemma OtherIsRejected(s: Choosing, y: Candidate)
    requires y in Picked(s, |s.candidates|, false)
    ensures Rejected(s, Picked(s, |s.candidates|, true), y)
  {
    var b := Picked(s, |s.candidates|, false);
    var k :| 0 <= k < |b| && b[k] == y;
    var i := OtherIsShadowed(s, k);
  }

  lemma FirstIsChosen(s: Choosing)
    requires s.candidates != []
    ensures Picked(s, |s.candidates|, true) != [] && Picked(s, |s.candidates|, true)[0] == s.candidates[0]
  {
    assert Chosen(s, 0);
    assert Picked(s, 1, true) == Picked(s, 0, true) + [s.candidates[0]] == [s.candidates[0]];
    PickedGrows(s, 1, |s.candidates|, true);
  }

  lemma PrefixPlus<T>(s: seq<T>, n: nat)
    requires n < |s|
    ensures multiset(s[..n + 1]) == multiset(s[..n]) + multiset{s[n]}
  {
    assert s[..n + 1] == s[..n] + [s[n]];
  }

  /** The rivals for a full link list: its members and the newcomer, at their distances from the
      node. */
  function Rivals(g: Graph, dist: Metric, id: Id, level: nat, neighbor: Id, vector: Vector): seq<Candidate>
    requires id in g && level < |g[id].neighbors|
  {
    var current, base := g[id].neighbors[level], g[id].vector;
    seq(|current|, i requires 0 <= i < |current| => Candidate(current[i], dist(base, VectorOf(Vectors(g, map[]), current[i]))))
      + [Candidate(neighbor, dist(base, vector))]
  }

  /** A full list and a newcomer for it. */
  ghost predicate Contended(g: Graph, m: nat, id: Id, level: nat, neighbor: Id, p: Pending) {
    && id in g && level < |g[id].neighbors| && neighbor !in g[id].neighbors[level] && id != neighbor
    && Target(g, level, neighbor, p) && (p.from > p.level || p.id == neighbor)
    && LinksOk(g, m, id, level, g[id].neighbors[level], p)
  }

  lemma RivalsKnown(g: Graph, m: nat, dist: Metric, id: Id, level: nat, neighbor: Id, vector: Vector, p: Pending)
    requires Contended(g, m, id, level, neighbor, p)
    ensures Known(Vectors(g, map[neighbor := vector]), SortBy(ByDistance(), Rivals(g, dist, id, level, neighbor, vector)))
  {
    var rivals := Rivals(g, dist, id, level, neighbor, vector);
    var sorted := SortBy(ByDistance(), rivals);
    SortByElements(ByDistance(), rivals);
    forall i | 0 <= i < |sorted| ensures sorted[i].id in Vectors(g, map[neighbor := vector]) {
      assert sorted[i] in multiset(sorted);
      assert sorted[i] in rivals;
    }
  }

  lemma RivalLinks(g: Graph, m: nat, dist: Metric, id: Id, level: nat, neighbor: Id, vector: Vector, p: Pending, chosen: seq<Candidate>)
    requires Contended(g, m, id, level, neighbor, p) && |chosen| <= MaxLinks(m, level)
    requires multiset(chosen) <= multiset(SortBy(ByDistance(), Rivals(g, dist, id, level, neighbor, vector)))
    ensures LinksOk(g, m, id, level, Ids(chosen), p)
  {
    var rivals, names := Rivals(g, dist, id, level, neighbor, vector), g[id].neighbors[level] + [neighbor];
    SortByElements(ByDistance(), rivals);
    assert Distinct(names);
    assert forall i :: 0 <= i < |rivals| ==> rivals[i].id == names[i];
    NamesOfSelection(rivals, names, chosen);
  }

  /** The link list after the newcomer asked for a place in it. */
  function LinksWith(g: Graph, dist: Metric, m: nat, id: Id, level: nat, neighbor: Id, vector: Vector): seq<Id>
    requires id in g && level < |g[id].neighbors|
  {
    var links := g[id].neighbors[level];
    if neighbor in links then links
    else if |links| < MaxLinks(m, level) then links + [neighbor]
    else Ids(Choice(Choosing(Vectors(g, map[neighbor := vector]), dist, SortBy(ByDistance(), Rivals(g, dist, id, level, neighbor, vector))), MaxLinks(m, level)))
  }

  function Relinked(g: Graph, id: Id, level: nat, links: seq<Id>): Graph
    requires id in g && level < |g[id].neighbors|
  {
    g[id := g[id].(neighbors := g[id].neighbors[level := links])]
  }

  ghost predicate AllLinksOk(g: Graph, m: nat, id: Id, top: nat, neighbors: seq<seq<Id>>, p: Pending)
    requires |neighbors| == top + 1
  {
    forall l :: 0 <= l <= top ==> LinksOk(g, m, id, l, neighbors[l], p)
  }

  lemma AllLinksWeaken(g: Graph, m: nat, id: Id, top: nat, neighbors: seq<seq<Id>>, p: Pending, q: Pending)
    requires |neighbors| == top + 1 && AllLinksOk(g, m, id, top, neighbors, p) && p.id == id
    ensures AllLinksOk(g, m, id, top, neighbors, q)
  {
    forall l | 0 <= l <= top ensures LinksOk(g, m, id, l, neighbors[l], q) {
      LinksWeaken(g, m, id, l, neighbors[l], p, q);
    }
  }

  lemma AllLinksStep(g: Graph, h: Graph, m: nat, id: Id, top: nat, neighbors: seq<seq<Id>>, level: nat, links: seq<Id>)
    requires |neighbors| == top + 1 && level <= top && SameRecords(g, h)
    requires AllLinksOk(g, m, id, top, neighbors, Pending(id, top, level + 1))
    requires LinksOk(h, m, id, level, links, Pending(id, top, level))
    ensures AllLinksOk(h, m, id, top, neighbors[level := links], Pending(id, top, level))
  {
    forall l | 0 <= l <= top && l != level ensures LinksOk(h, m, id, l, neighbors[l], Pending(id, top, level)) {
      LinksWeaken(g, m, id, l, neighbors[l], Pending(id, top, level + 1), Pending(id, top, level));
      LinksShape(g, h, m, id, l, neighbors[l], Pending(id, top, level));
    }
  }

  /** The nodes a layer search returns, or a selection of them, make a good link list. */
  lemma LayerLinks(c: Ctx, m: nat, found: seq<Candidate>, visited: set<Id>, chosen: seq<Candidate>, p: Pending)
    requires GraphOk(c.g, m, p) && c.exclude == p.id && c.level < p.from && LevelClosed(c.g, c.level) && HasLevel(c.g, c.entry, c.level)
    requires LayerResult(c, found, visited) && multiset(chosen) <= multiset(found) && |chosen| <= MaxLinks(m, c.level)
    ensures LinksOk(c.g, m, p.id, c.level, Ids(chosen), Pending(p.id, p.level, c.level))
  {
    NamesOfFound(c, found, visited, chosen);
    forall i | 0 <= i < |chosen| ensures chosen[i].id != p.id && chosen[i].id in c.g && c.g[chosen[i].id].level >= c.level {
      assert chosen[i] in multiset(chosen);
      assert chosen[i] in multiset(found);
      assert chosen[i] in found;
      ReachableHasLevel(c, chosen[i].id);
      assert NodeOk(c.g, m, chosen[i].id, c.g[chosen[i].id], p);
    }
  }

  lemma NamesOfFound(c: Ctx, found: seq<Candidate>, visited: set<Id>, chosen: seq<Candidate>)
    requires LayerResult(c, found, visited) && multiset(chosen) <= multiset(found)
    ensures Distinct(Ids(chosen))
  {
    var names := Ids(found);
    forall i, j | 0 <= i < j < |found| ensures names[i] != names[j] {
      assert found[i] in found && found[j] in found;
      assert found[i] != found[j];
    }
    NamesOfSelection(found, names, chosen);
  }

  /** A selection from distinctly named candidates has distinct names among theirs. */
  lemma NamesOfSelection(candidates: seq<Candidate>, names: seq<Id>, selected: seq<Candidate>)
    requires |candidates| == |names| && Distinct(names) && forall i :: 0 <= i < |names| ==> candidates[i].id == names[i]
    requires multiset(selected) <= multiset(candidates)
    ensures Distinct(Ids(selected)) && forall i :: 0 <= i < |selected| ==> selected[i].id in names
  {
    assert Distinct(candidates);
    CountsBoundDistinct(selected, candidates);
    forall i | 0 <= i < |selected| ensures selected[i] in candidates {
      assert selected[i] in multiset(selected);
      assert selected[i] in multiset(candidates);
    }
    forall i, j | 0 <= i < j < |selected| ensures selected[i].id != selected[j].id {
      var a :| 0 <= a < |candidates| && candidates[a] == selected[i];
      var b :| 0 <= b < |candidates| && candidates[b] == selected[j];
      assert a != b;
    }
    forall i | 0 <= i < |selected| ensures selected[i].id in names {
      var a :| 0 <= a < |candidates| && candidates[a] == selected[i];
      assert names[a] in names;
    }
  }

  // What a newcomer does to the lists of the nodes it links to.

  lemma SameVectors(a: Graph, b: Graph, extra: map<Id, Vector>)
    requires SameRecords(a, b)
    ensures Vectors(a, extra) == Vectors(b, extra)
  {
  }

  /** The new list depends on the old one and on vectors only. */
  lemma LinksWithSame(a: Graph, b: Graph, dist: Metric, m: nat, x: Id, level: nat, id: Id, vector: Vector)
    requires SameRecords(a, b) && HasLevel(a, x, level) && HasLevel(b, x, level) && a[x].neighbors[level] == b[x].neighbors[level]
    ensures LinksWith(a, dist, m, x, level, id, vector) == LinksWith(b, dist, m, x, level, id, vector)
  {
    SameVectors(a, b, map[]);
    SameVectors(a, b, map[id := vector]);
    assert Rivals(a, dist, x, level, id, vector) == Rivals(b, dist, x, level, id, vector);
  }

  /** A list that was asked for a place names the newcomer, unless it is full. */
  lemma NamesOrFull(g: Graph, dist: Metric, m: nat, x: Id, level: nat, id: Id, vector: Vector)
    requires m >= 1 && HasLevel(g, x, level) && |g[x].neighbors[level]| <= MaxLinks(m, level)
    ensures var links := LinksWith(g, dist, m, x, level, id, vector);
            (id in links || |links| == MaxLinks(m, level)) && (forall y :: y in links ==> y == id || y in g[x].neighbors[level])
  {
    var links := g[x].neighbors[level];
    if id !in links && |links| >= MaxLinks(m, level) {
      var rivals := Rivals(g, dist, x, level, id, vector);
      var s := Choosing(Vectors(g, map[id := vector]), dist, SortBy(ByDistance(), rivals));
      SortByElements(ByDistance(), rivals);
      ChoiceIsSelection(s, MaxLinks(m, level));
      ChoiceFromRivals(g, dist, x, level, id, vector, Choice(s, MaxLinks(m, level)));
      assert |multiset(s.candidates)| == |multiset(rivals)|;
    }
  }

  lemma ChoiceFromRivals(g: Graph, dist: Metric, x: Id, level: nat, id: Id, vector: Vector, chosen: seq<Candidate>)
    requires HasLevel(g, x, level) && multiset(chosen) <= multiset(Rivals(g, dist, x, level, id, vector))
    ensures forall y :: y in Ids(chosen) ==> y == id || y in g[x].neighbors[level]
  {
    var rivals := Rivals(g, dist, x, level, id, vector);
    forall i | 0 <= i < |chosen| ensures chosen[i].id == id || chosen[i].id in g[x].neighbors[level] {
      assert chosen[i] in multiset(chosen);
      assert chosen[i] in multiset(rivals);
      var j :| 0 <= j < |rivals| && rivals[j] == chosen[i];
    }
  }

  /** The graph after a newcomer asked every node of a list for a place at one level. */
  function Joined(g: Graph, dist: Metric, m: nat, links: seq<Id>, id: Id, vector: Vector, level: nat): Graph {
    map x | x in g :: if x in links && level < |g[x].neighbors|
                      then g[x].(neighbors := g[x].neighbors[level := LinksWith(g, dist, m, x, level, id, vector)])
                      else g[x]
  }

  lemma JoinedNone(g: Graph, dist: Metric, m: nat, id: Id, vector: Vector, level: nat)
    ensures Joined(g, dist, m, [], id, vector, level) == g
  {
  }

  lemma JoinedRecords(g: Graph, dist: Metric, m: nat, links: seq<Id>, id: Id, vector: Vector, level: nat)
    ensures SameRecords(g, Joined(g, dist, m, links, id, vector, level))
  {
  }

  /** One more node asked. */
  lemma JoinedOne(g: Graph, dist: Metric, m: nat, links: seq<Id>, x: Id, id: Id, vector: Vector, level: nat)
    requires x !in links
    ensures var h := Joined(g, dist, m, links, id, vector, level);
            Joined(g, dist, m, links + [x], id, vector, level)
            == if HasLevel(h, x, level) then Relinked(h, x, level, LinksWith(h, dist, m, x, level, id, vector)) else h
  {
    var h := Joined(g, dist, m, links, id, vector, level);
    JoinedRecords(g, dist, m, links, id, vector, level);
    if HasLevel(h, x, level) {
      LinksWithSame(g, h, dist, m, x, level, id, vector);
    }
  }

  /** The lists of one node after a newcomer with these links, at levels from `low` up, was wired in. */
  function WovenLists(g: Graph, dist: Metric, m: nat, x: Id, id: Id, vector: Vector, neighbors: seq<seq<Id>>, low: nat): (r: seq<seq<Id>>)
    requires x in g
    ensures |r| == |g[x].neighbors|
  {
    seq(|g[x].neighbors|, l requires 0 <= l < |g[x].neighbors| =>
      if low <= l < |neighbors| && x in neighbors[l] then LinksWith(g, dist, m, x, l, id, vector) else g[x].neighbors[l])
  }

  /** The graph after a newcomer was wired in at levels from `low` up: each node it links to at a
      level gives it a place there as its list allows, and nothing else changes. */
  function Woven(g: Graph, dist: Metric, m: nat, id: Id, vector: Vector, neighbors: seq<seq<Id>>, low: nat): Graph {
    map x | x in g :: g[x].(neighbors := WovenLists(g, dist, m, x, id, vector, neighbors, low))
  }

  lemma WovenNothing(g: Graph, dist: Metric, m: nat, id: Id, vector: Vector, neighbors: seq<seq<Id>>, low: nat)
    requires forall l :: low <= l < |neighbors| ==> neighbors[l] == []
    ensures Woven(g, dist, m, id, vector, neighbors, low) == g
  {
    forall x | x in g ensures WovenLists(g, dist, m, x, id, vector, neighbors, low) == g[x].neighbors {
    }
  }

  lemma WovenRecords(g: Graph, dist: Metric, m: nat, id: Id, vector: Vector, neighbors: seq<seq<Id>>, low: nat)
    ensures SameRecords(g, Woven(g, dist, m, id, vector, neighbors, low))
  {
  }

  lemma WovenStepLists(g: Graph, dist: Metric, m: nat, x: Id, id: Id, vector: Vector, neighbors: seq<seq<Id>>, level: nat, links: seq<Id>)
    requires level < |neighbors| && x in g
    ensures var h := Woven(g, dist, m, id, vector, neighbors, level + 1);
            Joined(h, dist, m, links, id, vector, level)[x].neighbors == WovenLists(g, dist, m, x, id, vector, neighbors[level := links], level)
  {
    var h := Woven(g, dist, m, id, vector, neighbors, level + 1);
    WovenRecords(g, dist, m, id, vector, neighbors, level + 1);
    if HasLevel(g, x, level) {
      LinksWithSame(g, h, dist, m, x, level, id, vector);
    }
  }

  /** Wiring goes level by level, from the top down. */
  lemma WovenStep(g: Graph, dist: Metric, m: nat, id: Id, vector: Vector, neighbors: seq<seq<Id>>, level: nat, links: seq<Id>)
    requires level < |neighbors|
    ensures Joined(Woven(g, dist, m, id, vector, neighbors, level + 1), dist, m, links, id, vector, level)
            == Woven(g, dist, m, id, vector, neighbors[level := links], level)
  {
    var h := Woven(g, dist, m, id, vector, neighbors, level + 1);
    var a, b := Joined(h, dist, m, links, id, vector, level), Woven(g, dist, m, id, vector, neighbors[level := links], level);
    JoinedRecords(h, dist, m, links, id, vector, level);
    forall x | x in g ensures a[x] == b[x] {
      WovenStepLists(g, dist, m, x, id, vector, neighbors, level, links);
    }
  }

  /** Graphs that differ at other levels only look the same to a layer search. */
  ghost predicate SameLayer(g: Graph, h: Graph, level: nat) {
    && SameRecords(g, h)
    && forall x :: x in g ==> |g[x].neighbors| == |h[x].neighbors| && (level < |g[x].neighbors| ==> g[x].neighbors[level] == h[x].neighbors[level])
  }

  lemma WovenLayer(g: Graph, dist: Metric, m: nat, id: Id, vector: Vector, neighbors: seq<seq<Id>>, low: nat, level: nat)
    requires level < low
    ensures SameLayer(Woven(g, dist, m, id, vector, neighbors, low), g, level)
  {
  }

  lemma ReachableThere(g: Graph, h: Graph, level: nat, a: Id, b: Id)
    requires SameLayer(g, h, level) && Reachable(g, level, a, b)
    ensures Reachable(h, level, a, b)
  {
    var p :| Path(g, level, p) && p[0] == a && p[|p| - 1] == b;
    assert Path(h, level, p);
  }

  lemma SameReachable(g: Graph, h: Graph, level: nat, a: Id, b: Id)
    requires SameLayer(g, h, level)
    ensures Reachable(g, level, a, b) <==> Reachable(h, level, a, b)
  {
    if Reachable(g, level, a, b) { ReachableThere(g, h, level, a, b); }
    if Reachable(h, level, a, b) { ReachableThere(h, g, level, a, b); }
  }

  lemma SameTerms(c: Ctx, h: Graph)
    requires SameLayer(c.g, h, c.level)
    ensures var d := c.(g := h);
            && d.Live() == c.Live() && (forall v :: c.Eligible(v) <==> d.Eligible(v)) && (forall v :: v in c.g ==> c.At(v) == d.At(v))
  {
    assert c.Live() == c.(g := h).Live();
  }

  lemma FollowedThere(c: Ctx, h: Graph, v: Id, visited: set<Id>)
    requires SameLayer(c.g, h, c.level)
    ensures Followed(c, v, visited) <==> Followed(c.(g := h), v, visited)
  {
  }

  lemma ExploredThere(c: Ctx, h: Graph, out: seq<Candidate>, visited: set<Id>)
    requires SameLayer(c.g, h, c.level) && LayerResult(c, out, visited)
    ensures var d := c.(g := h);
            && (forall v :: v in visited ==> v in d.g && Reachable(d.g, d.level, d.entry, v))
            && (forall x :: x in out ==> Followed(d, x.id, visited))
            && (forall v, x :: v in visited && x in out && d.At(v).distance < x.distance ==> Followed(d, v, visited))
  {
    var d := c.(g := h);
    SameTerms(c, h);
    forall v | v in visited ensures v in d.g && Reachable(d.g, d.level, d.entry, v) { SameReachable(c.g, h, c.level, c.entry, v); }
    forall x | x in out ensures Followed(d, x.id, visited) { FollowedThere(c, h, x.id, visited); }
    forall v, x | v in visited && x in out && d.At(v).distance < x.distance ensures Followed(d, v, visited) { FollowedThere(c, h, v, visited); }
  }

  lemma CompleteThere(c: Ctx, h: Graph, out: seq<Candidate>, visited: set<Id>)
    requires SameLayer(c.g, h, c.level) && LayerResult(c, out, visited) && (|out| < c.ef || c.ef >= |c.Live()|)
    ensures var d := c.(g := h); forall v :: d.Eligible(v) && Reachable(d.g, d.level, d.entry, v) ==> d.At(v) in out
  {
    var d := c.(g := h);
    SameTerms(c, h);
    forall v | d.Eligible(v) && Reachable(d.g, d.level, d.entry, v) ensures d.At(v) in out { SameReachable(c.g, h, c.level, c.entry, v); }
  }

  lemma LayerResultThere(c: Ctx, h: Graph, out: seq<Candidate>, visited: set<Id>)
    requires SameLayer(c.g, h, c.level) && LayerResult(c, out, visited)
    ensures LayerResult(c.(g := h), out, visited)
  {
    SameTerms(c, h);
    ExploredThere(c, h, out, visited);
    if |out| < c.ef || c.ef >= |c.Live()| { CompleteThere(c, h, out, visited); }
  }

  /** The links of a newcomer at one level: what the layer search finds, or the heuristic's choice of
      it when that is too much. */
  function Trimmed(c: Ctx, m: nat, found: seq<Candidate>): seq<Candidate> {
    if |found| > MaxLinks(m, c.level) then Choice(Choosing(Vectors(c.g, map[]), c.dist, found), MaxLinks(m, c.level)) else found
  }

  ghost predicate SearchGives(c: Ctx, m: nat, links: seq<Id>) {
    exists found, visited :: LayerResult(c, found, visited) && links == Ids(Trimmed(c, m, found))
  }

  ghost predicate FindsLinks(c: Ctx, m: nat, links: seq<Id>) {
    var given := SearchGives(c, m, links);
    given
  }

  lemma FindsLinksThere(c: Ctx, h: Graph, m: nat, links: seq<Id>)
    requires SameLayer(c.g, h, c.level) && FindsLinks(c, m, links)
    ensures FindsLinks(c.(g := h), m, links)
  {
    assert SearchGives(c, m, links);
    var found, visited :| LayerResult(c, found, visited) && links == Ids(Trimmed(c, m, found));
    LayerResultThere(c, h, found, visited);
    SameVectors(c.g, h, map[]);
    assert SearchGives(c.(g := h), m, links);
  }

  /** Wiring at higher levels changes nothing for the search of a layer. */
  lemma WovenFinds(g: Graph, dist: Metric, m: nat, id: Id, vector: Vector, neighbors: seq<seq<Id>>, low: nat, c: Ctx, links: seq<Id>)
    requires c.g == Woven(g, dist, m, id, vector, neighbors, low) && c.level < low && FindsLinks(c, m, links)
    ensures FindsLinks(c.(g := g), m, links)
  {
    WovenLayer(g, dist, m, id, vector, neighbors, low, c.level);
    FindsLinksThere(c, g, m, links);
  }
}
