/** Search in one layer of the vector graph: greedy descent and best-first search with a
    near frontier and a bounded buffer of the best live nodes. */
module VectorSearch {
  import opened Orders
  import Sums
  import opened Heaps
  import opened VectorGraph

  /** Everything one layer search depends on. */
  datatype Ctx = Ctx(g: Graph, dist: Metric, query: Vector, entry: Id, level: nat, ef: nat, exclude: Id) {

    function At(id: Id): Candidate
      requires id in g
    {
      Candidate(id, dist(query, g[id].vector))
    }

    /** A live node the search may return. */
    predicate Eligible(id: Id) {
      id in g && id != exclude && !g[id].deleted
    }

    ghost function Live(): set<Id> {
      set id | id in g && Eligible(id)
    }
  }

  /** The heap `h` holds exactly the candidates of `s`. */
  ghost predicate HeapOf(above: (Candidate, Candidate) -> bool, h: seq<Candidate>, s: set<Candidate>) {
    IsHeap(above, h) && multiset(h) == multiset(s)
  }

  lemma HeapSize(above: (Candidate, Candidate) -> bool, h: seq<Candidate>, s: set<Candidate>)
    requires HeapOf(above, h, s)
    ensures |h| == |s|
  {
    assert |h| == |multiset(h)| == |multiset(s)| == |s|;
  }

  method PushTo(above: (Candidate, Candidate) -> bool, h: seq<Candidate>, x: Candidate, ghost s: set<Candidate>) returns (h': seq<Candidate>)
    requires TotalPreorder(above) && HeapOf(above, h, s) && x !in s
    ensures HeapOf(above, h', s + {x})
  {
    h' := Push(above, h, x);
    assert multiset(s + {x}) == multiset(s) + multiset{x};
  }

  method PopFrom(above: (Candidate, Candidate) -> bool, h: seq<Candidate>, ghost s: set<Candidate>) returns (x: Candidate, h': seq<Candidate>)
    requires TotalPreorder(above) && HeapOf(above, h, s) && h != []
    ensures x in s && HeapOf(above, h', s - {x})
    ensures forall y :: y in s ==> above(x, y)
  {
    x, h' := Pop(above, h);
    assert x in multiset(h);
    assert multiset(s - {x}) == multiset(s) - multiset{x};
    forall y | y in s ensures above(x, y) {
      assert y in multiset(s);
    }
  }

  /** What holds between any two steps: `frontier` is still to be expanded, `best` holds the
      best live nodes seen, and a live node seen but not kept is no nearer than any kept one. */
  ghost predicate Searching(c: Ctx, frontier: set<Candidate>, best: set<Candidate>, visited: set<Id>) {
    && (forall v :: v in visited ==> v in c.g && Reachable(c.g, c.level, c.entry, v))
    && c.entry in visited
    && (forall x :: x in frontier ==> x.id in visited && x == c.At(x.id))
    && (forall x :: x in best ==> x.id in visited && c.Eligible(x.id) && x == c.At(x.id))
    && |best| <= c.ef
    && (forall v :: v in visited && c.Eligible(v) && c.At(v) !in best ==> Beaten(c, best, c.At(v)))
  }

  /** The buffer is full and nothing in it is farther than x. */
  ghost predicate Beaten(c: Ctx, best: set<Candidate>, x: Candidate) {
    |best| == c.ef && forall b :: b in best ==> b.distance <= x.distance
  }

  /** Every link of v at the search level leads to a visited node. */
  ghost predicate Followed(c: Ctx, v: Id, visited: set<Id>) {
    HasLevel(c.g, v, c.level) ==> forall i :: 0 <= i < |c.g[v].neighbors[c.level]| ==> c.g[v].neighbors[c.level][i] in visited
  }

  /** A visited node waits in the frontier, had all its links followed, or was too far for a full
      buffer. */
  ghost predicate Handled(c: Ctx, frontier: set<Candidate>, best: set<Candidate>, expanded: set<Id>, v: Id) {
    v in c.g && (v in expanded || c.At(v) in frontier || (c.At(v) !in best && Beaten(c, best, c.At(v))))
  }

  ghost predicate Covered(c: Ctx, frontier: set<Candidate>, best: set<Candidate>, visited: set<Id>, expanded: set<Id>) {
    && expanded <= visited
    && (forall v :: v in visited ==> Handled(c, frontier, best, expanded, v))
    && (forall v :: v in expanded ==> Followed(c, v, visited))
  }

  /** The same while the links of `current` before position `done` have been followed. */
  ghost predicate Covering(c: Ctx, frontier: set<Candidate>, best: set<Candidate>, visited: set<Id>, expanded: set<Id>, current: Id, done: nat) {
    && HasLevel(c.g, current, c.level) && done <= |c.g[current].neighbors[c.level]| && current in visited
    && expanded <= visited
    && (forall v :: v in visited ==> v == current || Handled(c, frontier, best, expanded, v))
    && (forall v :: v in expanded ==> Followed(c, v, visited))
    && (forall i :: 0 <= i < done ==> c.g[current].neighbors[c.level][i] in visited)
  }

  /** The buffer changes by taking x in, if at all, and what it beat it still beats. */
  ghost predicate Tightens(c: Ctx, best: set<Candidate>, next: set<Candidate>, x: Candidate) {
    && next <= best + {x}
    && (|best| == c.ef ==> |next| == c.ef && forall y: Candidate :: Beaten(c, best, y) ==> Beaten(c, next, y))
  }

  /** A neighbour too far for a full buffer is only marked as visited. */
  lemma SkipKeeps(c: Ctx, frontier: set<Candidate>, best: set<Candidate>, visited: set<Id>, id: Id, top: Candidate)
    requires Searching(c, frontier, best, visited) && id in c.g && id !in visited && Reachable(c.g, c.level, c.entry, id)
    requires |best| == c.ef && (forall b :: b in best ==> b.distance <= top.distance) && top.distance <= c.At(id).distance
    ensures Searching(c, frontier, best, visited + {id})
  {
  }

  lemma EnqueueKeeps(c: Ctx, frontier: set<Candidate>, best: set<Candidate>, visited: set<Id>, id: Id)
    requires Searching(c, frontier, best, visited) && id in c.g && id !in visited && Reachable(c.g, c.level, c.entry, id)
    requires !c.Eligible(id)
    ensures Searching(c, frontier + {c.At(id)}, best, visited + {id})
  {
  }

  lemma AdmitKeeps(c: Ctx, frontier: set<Candidate>, best: set<Candidate>, visited: set<Id>, id: Id)
    requires Searching(c, frontier, best, visited) && id !in visited && Reachable(c.g, c.level, c.entry, id)
    requires c.Eligible(id) && |best| < c.ef
    ensures Searching(c, frontier + {c.At(id)}, best + {c.At(id)}, visited + {id})
  {
    assert forall v :: v in visited && c.Eligible(v) ==> c.At(v) in best;
  }

  /** A nearer live node displaces the farthest member of a full buffer. */
  lemma DisplaceKeeps(c: Ctx, frontier: set<Candidate>, best: set<Candidate>, visited: set<Id>, id: Id, worst: Candidate)
    requires Searching(c, frontier, best, visited) && id !in visited && Reachable(c.g, c.level, c.entry, id)
    requires c.Eligible(id) && |best| == c.ef && (exists b :: b in best && c.At(id).distance < b.distance)
    requires worst in best + {c.At(id)} && (forall b :: b in best + {c.At(id)} ==> b.distance <= worst.distance)
    ensures Searching(c, frontier + {c.At(id)}, best + {c.At(id)} - {worst}, visited + {id})
  {
    var next := best + {c.At(id)} - {worst};
    assert c.At(id) !in best;
    assert |best + {c.At(id)}| == c.ef + 1;
    forall v | v in visited + {id} && c.Eligible(v) && c.At(v) !in next ensures Beaten(c, next, c.At(v)) {
      if c.At(v) !in best && v != id {
        assert Beaten(c, best, c.At(v));
        var b :| b in best && c.At(id).distance < b.distance;
        assert b.distance <= c.At(v).distance;
      } else {
        assert c.At(v) == worst;
      }
    }
  }

  lemma CoverStep(c: Ctx, f: set<Candidate>, b: set<Candidate>, f': set<Candidate>, b': set<Candidate>, visited: set<Id>, expanded: set<Id>, current: Id, done: nat, id: Id)
    requires Covering(c, f, b, visited, expanded, current, done) && done < |c.g[current].neighbors[c.level]|
    requires id == c.g[current].neighbors[c.level][done] && id in c.g && id !in visited && Tightens(c, b, b', c.At(id))
    requires f' == f + {c.At(id)} || (f' == f && b' == b && c.At(id) !in b && Beaten(c, b, c.At(id)))
    ensures Covering(c, f', b', visited + {id}, expanded, current, done + 1)
  {
    forall v | v in visited + {id} ensures v == current || Handled(c, f', b', expanded, v) {
      if v != id && v != current {
        assert Handled(c, f, b, expanded, v);
      }
    }
  }

  lemma CoverSeen(c: Ctx, f: set<Candidate>, b: set<Candidate>, visited: set<Id>, expanded: set<Id>, current: Id, done: nat)
    requires Covering(c, f, b, visited, expanded, current, done) && done < |c.g[current].neighbors[c.level]|
    requires c.g[current].neighbors[c.level][done] in visited
    ensures Covering(c, f, b, visited, expanded, current, done + 1)
  {
  }

  /** Outcome of looking at one unvisited neighbour. */
  method Visit(c: Ctx, frontier: seq<Candidate>, best: seq<Candidate>, id: Id,
               ghost f: set<Candidate>, ghost b: set<Candidate>, ghost visited: set<Id>)
    returns (frontier': seq<Candidate>, best': seq<Candidate>, ghost f': set<Candidate>, ghost b': set<Candidate>)
    requires c.ef >= 1 && id in c.g && id !in visited && Reachable(c.g, c.level, c.entry, id)
    requires HeapOf(ByDistance(), frontier, f) && HeapOf(Flip(ByDistance()), best, b)
    requires Searching(c, f, b, visited)
    ensures HeapOf(ByDistance(), frontier', f') && HeapOf(Flip(ByDistance()), best', b')
    ensures Searching(c, f', b', visited + {id})
    ensures f' == f + {c.At(id)} || (f' == f && b' == b && c.At(id) !in b && Beaten(c, b, c.At(id)))
    ensures Tightens(c, b, b', c.At(id))
  {
    ByDistanceIsOrder();
    FlipPreorder(ByDistance());
    HeapSize(Flip(ByDistance()), best, b);
    frontier', best', f', b' := frontier, best, f, b;
    var x := c.At(id);
    assert x !in f && x !in b;
    if |best| < c.ef || x.distance < best[0].distance {
      frontier' := PushTo(ByDistance(), frontier, x, f);
      f' := f + {x};
      if c.Eligible(id) {
        best', b' := Keep(c, best, x, b);
        if |best| < c.ef {
          AdmitKeeps(c, f, b, visited, id);
        } else {
          RootInSet(best, b);
          ghost var worst :| worst in b + {x} && b' == b + {x} - {worst} && (forall y :: y in b + {x} ==> y.distance <= worst.distance);
          DisplaceKeeps(c, f, b, visited, id, worst);
          DisplaceTightens(c, b, x, worst, best[0]);
        }
      } else {
        EnqueueKeeps(c, f, b, visited, id);
      }
    } else {
      RootInSet(best, b);
      SkipKeeps(c, f, b, visited, id, best[0]);
    }
  }

  lemma DisplaceTightens(c: Ctx, b: set<Candidate>, x: Candidate, worst: Candidate, top: Candidate)
    requires |b| == c.ef && x !in b && worst in b + {x} && top in b && x.distance < top.distance
    ensures Tightens(c, b, b + {x} - {worst}, x)
  {
    var next := b + {x} - {worst};
    assert |b + {x}| == c.ef + 1;
    forall y: Candidate | Beaten(c, b, y) ensures Beaten(c, next, y) {
      assert top.distance <= y.distance;
    }
  }

  /** The root of the buffer is its farthest member. */
  lemma RootInSet(best: seq<Candidate>, b: set<Candidate>)
    requires HeapOf(Flip(ByDistance()), best, b) && best != []
    ensures best[0] in b && forall y :: y in b ==> y.distance <= best[0].distance
  {
    ByDistanceIsOrder();
    FlipPreorder(ByDistance());
    RootAboveAll(Flip(ByDistance()), best);
    assert best[0] in multiset(best);
    forall y | y in b ensures y.distance <= best[0].distance {
      assert y in multiset(b);
      assert Flip(ByDistance())(best[0], y);
    }
  }

  /** Push into the buffer and, when it overflows, drop its farthest member. */
  method Keep(c: Ctx, best: seq<Candidate>, x: Candidate, ghost b: set<Candidate>) returns (best': seq<Candidate>, ghost b': set<Candidate>)
    requires HeapOf(Flip(ByDistance()), best, b) && x !in b && |b| <= c.ef
    ensures HeapOf(Flip(ByDistance()), best', b')
    ensures |b| < c.ef ==> b' == b + {x}
    ensures |b| == c.ef ==> |b'| == c.ef && exists worst :: worst in b + {x} && b' == b + {x} - {worst}
                                                  && forall y :: y in b + {x} ==> y.distance <= worst.distance
  {
    ByDistanceIsOrder();
    FlipPreorder(ByDistance());
    best' := PushTo(Flip(ByDistance()), best, x, b);
    b' := b + {x};
    HeapSize(Flip(ByDistance()), best', b');
    if |best'| > c.ef {
      var worst;
      worst, best' := PopFrom(Flip(ByDistance()), best', b');
      b' := b' - {worst};
      forall y | y in b + {x} ensures y.distance <= worst.distance {
        assert Flip(ByDistance())(worst, y);
      }
    }
  }

  /** Follow every link of `current` at the search level. */
  method Expand(c: Ctx, current: Id, frontier: seq<Candidate>, best: seq<Candidate>, visited: set<Id>,
                ghost f: set<Candidate>, ghost b: set<Candidate>, ghost expanded: set<Id>)
    returns (r: Result<(seq<Candidate>, seq<Candidate>, set<Id>)>, ghost f': set<Candidate>, ghost b': set<Candidate>)
    requires c.ef >= 1 && HasLevel(c.g, current, c.level) && current in visited
    requires HeapOf(ByDistance(), frontier, f) && HeapOf(Flip(ByDistance()), best, b)
    requires Searching(c, f, b, visited)
    requires Covering(c, f, b, visited, expanded, current, 0)
    ensures LevelClosed(c.g, c.level) ==> r.Ok?
    ensures r.Ok? ==>
              && HeapOf(ByDistance(), r.value.0, f') && HeapOf(Flip(ByDistance()), r.value.1, b')
              && Searching(c, f', b', r.value.2) && visited <= r.value.2
              && Covered(c, f', b', r.value.2, expanded + {current})
              && (r.value.2 == visited ==> f' == f)
  {
    var links := c.g[current].neighbors[c.level];
    var fr, be, vis := frontier, best, visited;
    f', b' := f, b;
    for i := 0 to |links|
      invariant HeapOf(ByDistance(), fr, f') && HeapOf(Flip(ByDistance()), be, b')
      invariant Searching(c, f', b', vis) && visited <= vis
      invariant Covering(c, f', b', vis, expanded, current, i)
      invariant vis == visited ==> f' == f
    {
      var id := links[i];
      if id !in vis {
        if id !in c.g {
          return Err(MissingNode(id)), f', b';
        }
        if c.g[id].level < c.level {
          return Err(LinkToLowerLevel(id)), f', b';
        }
        ReachStep(c.g, c.level, c.entry, current, id);
        ghost var f0, b0 := f', b';
        fr, be, f', b' := Visit(c, fr, be, id, f', b', vis);
        CoverStep(c, f0, b0, f', b', vis, expanded, current, i, id);
        vis := vis + {id};
      } else {
        CoverSeen(c, f', b', vis, expanded, current, i);
      }
    }
    CoverDone(c, f', b', vis, expanded, current);
    r := Ok((fr, be, vis));
  }

  lemma CoverDone(c: Ctx, frontier: set<Candidate>, best: set<Candidate>, visited: set<Id>, expanded: set<Id>, current: Id)
    requires HasLevel(c.g, current, c.level)
    requires Covering(c, frontier, best, visited, expanded, current, |c.g[current].neighbors[c.level]|)
    ensures Covered(c, frontier, best, visited, expanded + {current})
  {
    forall v | v in visited ensures Handled(c, frontier, best, expanded + {current}, v) {
      assert v == current || Handled(c, frontier, best, expanded, v);
    }
  }

  lemma CoverPop(c: Ctx, frontier: set<Candidate>, best: set<Candidate>, visited: set<Id>, expanded: set<Id>, current: Candidate)
    requires Covered(c, frontier, best, visited, expanded) && current in frontier && current.id in visited
    requires HasLevel(c.g, current.id, c.level) && current == c.At(current.id)
    ensures Covering(c, frontier - {current}, best, visited, expanded, current.id, 0)
  {
    forall v | v in visited ensures v == current.id || Handled(c, frontier - {current}, best, expanded, v) {
      assert Handled(c, frontier, best, expanded, v);
    }
  }

  /** What a layer search promises about its result. */
  ghost predicate LayerResult(c: Ctx, out: seq<Candidate>, visited: set<Id>) {
    var listed, explored, complete := Listed(c, out, visited), Explored(c, out, visited), Complete(c, out);
    listed && explored && (|out| < c.ef || c.ef >= |c.Live()| ==> complete)
  }

  /** Live nodes that were seen, in order of distance; nothing live that was seen and left out is
      nearer than anything returned. */
  ghost predicate Listed(c: Ctx, out: seq<Candidate>, visited: set<Id>) {
    && Sorted(ByDistance(), out) && Distinct(out) && |out| <= c.ef
    && (forall x :: x in out ==> x.id in visited && c.Eligible(x.id) && x == c.At(x.id))
    && (forall v, x :: v in visited && v in c.g && c.Eligible(v) && c.At(v) !in out && x in out ==> x.distance <= c.At(v).distance)
  }

  /** The nodes seen are reachable from the entry, and all links of every returned node, and of every
      node seen that is nearer than a returned one, were followed. */
  ghost predicate Explored(c: Ctx, out: seq<Candidate>, visited: set<Id>) {
    && c.entry in visited && (forall v :: v in visited ==> v in c.g && Reachable(c.g, c.level, c.entry, v))
    && (forall x :: x in out ==> Followed(c, x.id, visited))
    && (forall v, x :: v in visited && x in out && c.At(v).distance < x.distance ==> Followed(c, v, visited))
  }

  /** The answer is the live part of what is reachable. */
  ghost predicate Complete(c: Ctx, out: seq<Candidate>) {
    forall v :: c.Eligible(v) && Reachable(c.g, c.level, c.entry, v) ==> c.At(v) in out
  }

  /** The state between two rounds of the search loop. */
  ghost predicate Round(c: Ctx, frontier: seq<Candidate>, best: seq<Candidate>, visited: set<Id>,
                        f: set<Candidate>, b: set<Candidate>, expanded: set<Id>) {
    && HeapOf(ByDistance(), frontier, f) && HeapOf(Flip(ByDistance()), best, b)
    && Searching(c, f, b, visited)
    && Covered(c, f, b, visited, expanded)
  }

  /** One round: take the nearest frontier node, stop if it cannot help, else follow its links. */
  method Advance(c: Ctx, frontier: seq<Candidate>, best: seq<Candidate>, visited: set<Id>,
                 ghost f: set<Candidate>, ghost b: set<Candidate>, ghost expanded: set<Id>)
    returns (r: Result<(bool, seq<Candidate>, seq<Candidate>, set<Id>)>, ghost f': set<Candidate>, ghost b': set<Candidate>, ghost expanded': set<Id>)
    requires c.ef >= 1 && frontier != [] && Round(c, frontier, best, visited, f, b, expanded)
    ensures LevelClosed(c.g, c.level) && HasLevel(c.g, c.entry, c.level) ==> r.Ok?
    ensures r.Ok? && r.value.0 ==> |b| == c.ef && forall y, x :: y in f && x in b ==> x.distance < y.distance
    ensures r.Ok? && !r.value.0 ==>
              && Round(c, r.value.1, r.value.2, r.value.3, f', b', expanded')
              && visited <= r.value.3 && (r.value.3 == visited ==> |f'| < |f|)
  {
    ByDistanceIsOrder();
    HeapSize(Flip(ByDistance()), best, b);
    f', b', expanded' := f, b, expanded;
    var current, rest := PopFrom(ByDistance(), frontier, f);
    if |best| >= c.ef && current.distance > best[0].distance {
      RootInSet(best, b);
      FartherThanAll(f, b, current, best[0]);
      return Ok((true, frontier, best, visited)), f', b', expanded';
    }
    ReachableHasLevel(c, current.id);
    if !HasLevel(c.g, current.id, c.level) {
      return Err(LacksLevel(current.id)), f', b', expanded';
    }
    CoverPop(c, f, b, visited, expanded, current);
    SearchingPop(c, f, b, visited, current);
    var step;
    step, f', b' := Expand(c, current.id, rest, best, visited, f - {current}, b, expanded);
    expanded' := expanded + {current.id};
    if step.Err? {
      return Err(step.reason), f', b', expanded';
    }
    r := Ok((false, step.value.0, step.value.1, step.value.2));
  }

  lemma FartherThanAll(f: set<Candidate>, b: set<Candidate>, nearest: Candidate, top: Candidate)
    requires (forall y :: y in f ==> ByDistance()(nearest, y)) && (forall x :: x in b ==> x.distance <= top.distance) && nearest.distance > top.distance
    ensures forall y, x :: y in f && x in b ==> x.distance < y.distance
  {
    forall y, x | y in f && x in b ensures x.distance < y.distance { assert ByDistance()(nearest, y); }
  }

  lemma ReachableHasLevel(c: Ctx, id: Id)
    requires Reachable(c.g, c.level, c.entry, id)
    ensures LevelClosed(c.g, c.level) && HasLevel(c.g, c.entry, c.level) ==> HasLevel(c.g, id, c.level)
  {
    if LevelClosed(c.g, c.level) && HasLevel(c.g, c.entry, c.level) {
      var p :| Path(c.g, c.level, p) && p[0] == c.entry && p[|p| - 1] == id;
      var s := set v | v in c.g && HasLevel(c.g, v, c.level);
      forall v, n | v in s && n in c.g[v].neighbors[c.level] ensures n in s {
        assert LinksHave(c.g, c.level, c.g[v].neighbors[c.level]);
      }
      PathStaysInside(c.g, c.level, s, p);
    }
  }

  /** Best-first search of one layer. */
  method Layer(c: Ctx) returns (r: Result<seq<Candidate>>, ghost visited: set<Id>)
    requires c.ef >= 1
    ensures LevelClosed(c.g, c.level) && HasLevel(c.g, c.entry, c.level) ==> r.Ok?
    ensures r.Ok? ==> LayerResult(c, r.value, visited)
  {
    visited := {};
    if c.entry !in c.g {
      return Err(MissingNode(c.entry)), visited;
    }
    var x := c.At(c.entry);
    var frontier: seq<Candidate> := [x];
    var best: seq<Candidate> := if c.Eligible(c.entry) then [x] else [];
    var seen := {c.entry};
    ghost var f, b, expanded: set<Id> := {x}, if c.Eligible(c.entry) then {x} else {}, {};
    ReachesSelf(c.g, c.level, c.entry);
    while frontier != []
      invariant Round(c, frontier, best, seen, f, b, expanded)
      decreases |c.g.Keys - seen|, |f|
    {
      ghost var was := seen;
      var step;
      ghost var f', b', expanded';
      step, f', b', expanded' := Advance(c, frontier, best, seen, f, b, expanded);
      if step.Err? {
        return Err(step.reason), seen;
      }
      if step.value.0 {
        break;
      }
      frontier, best, seen, f, b, expanded := step.value.1, step.value.2, step.value.3, f', b', expanded';
      Progress(c.g.Keys, was, seen);
    }
    visited := seen;
    var out := SortBy(ByDistance(), best);
    LayerDone(c, best, out, frontier, f, b, seen, expanded);
    r := Ok(out);
  }

  lemma SearchingPop(c: Ctx, frontier: set<Candidate>, best: set<Candidate>, visited: set<Id>, current: Candidate)
    requires Searching(c, frontier, best, visited)
    ensures Searching(c, frontier - {current}, best, visited)
  {
  }

  lemma Progress(keys: set<Id>, was: set<Id>, now: set<Id>)
    requires was <= now <= keys
    ensures |keys - now| <= |keys - was|
    ensures now != was ==> |keys - now| < |keys - was|
  {
    assert keys - was == (keys - now) + (now - was);
    if now != was {
      var x :| x in now && x !in was;
      assert x in now - was;
    }
  }

  /** When the search stops, the sorted buffer is the answer. */
  lemma LayerDone(c: Ctx, best: seq<Candidate>, out: seq<Candidate>, rest: seq<Candidate>, f: set<Candidate>, b: set<Candidate>, visited: set<Id>, expanded: set<Id>)
    requires c.ef >= 1 && HeapOf(Flip(ByDistance()), best, b) && HeapOf(ByDistance(), rest, f)
    requires out == SortBy(ByDistance(), best) && Searching(c, f, b, visited)
    requires Covered(c, f, b, visited, expanded) && (|b| < c.ef ==> rest == [])
    requires forall y, x :: y in f && x in b ==> x.distance < y.distance
    ensures LayerResult(c, out, visited)
  {
    ByDistanceIsOrder();
    SortBySorts(ByDistance(), best);
    SortByElements(ByDistance(), best);
    SetSequence(out, b);
    BufferIsListed(c, out, f, b, visited);
    BufferIsExplored(c, out, f, b, visited, expanded);
    NothingReachableMissed(c, rest, f, b, visited, expanded);
  }

  lemma BufferIsListed(c: Ctx, out: seq<Candidate>, f: set<Candidate>, b: set<Candidate>, visited: set<Id>)
    requires Searching(c, f, b, visited) && Sorted(ByDistance(), out) && Distinct(out) && |out| == |b| && forall x :: x in out <==> x in b
    ensures Listed(c, out, visited)
  {
  }

  lemma BufferIsExplored(c: Ctx, out: seq<Candidate>, f: set<Candidate>, b: set<Candidate>, visited: set<Id>, expanded: set<Id>)
    requires Searching(c, f, b, visited) && Covered(c, f, b, visited, expanded) && forall x :: x in out <==> x in b
    requires forall y, x :: y in f && x in b ==> x.distance < y.distance
    ensures Explored(c, out, visited)
  {
    LinksFollowed(c, f, b, visited, expanded);
  }

  lemma NothingReachableMissed(c: Ctx, rest: seq<Candidate>, f: set<Candidate>, b: set<Candidate>, visited: set<Id>, expanded: set<Id>)
    requires HeapOf(ByDistance(), rest, f) && Searching(c, f, b, visited)
    requires Covered(c, f, b, visited, expanded) && (|b| < c.ef ==> rest == [])
    ensures |b| < c.ef || c.ef >= |c.Live()| ==> forall v :: c.Eligible(v) && Reachable(c.g, c.level, c.entry, v) ==> c.At(v) in b
  {
    if |b| < c.ef {
      Exhausted(c, rest, f, b, visited, expanded);
    } else if c.ef >= |c.Live()| {
      FullIsEverything(c, b);
    }
  }

  lemma LinksFollowed(c: Ctx, f: set<Candidate>, b: set<Candidate>, visited: set<Id>, expanded: set<Id>)
    requires Searching(c, f, b, visited) && Covered(c, f, b, visited, expanded)
    requires forall y, x :: y in f && x in b ==> x.distance < y.distance
    ensures forall x :: x in b ==> Followed(c, x.id, visited)
    ensures forall v, x :: v in visited && x in b && c.At(v).distance < x.distance ==> Followed(c, v, visited)
  {
    forall x | x in b ensures Followed(c, x.id, visited) { assert Handled(c, f, b, expanded, x.id); }
    forall v, x | v in visited && x in b && c.At(v).distance < x.distance ensures Followed(c, v, visited) { assert Handled(c, f, b, expanded, v); }
  }

  lemma SetSequence(s: seq<Candidate>, b: set<Candidate>)
    requires multiset(s) == multiset(b)
    ensures Distinct(s) && |s| == |b| && forall x :: x in s <==> x in b
  {
    assert |s| == |multiset(s)| == |b|;
    Sums.ListingOf(s, b);
  }

  lemma Exhausted(c: Ctx, rest: seq<Candidate>, f: set<Candidate>, b: set<Candidate>, visited: set<Id>, expanded: set<Id>)
    requires Searching(c, f, b, visited) && |b| < c.ef && Covered(c, f, b, visited, expanded)
    requires HeapOf(ByDistance(), rest, f) && rest == []
    ensures forall v :: c.Eligible(v) && Reachable(c.g, c.level, c.entry, v) ==> c.At(v) in b
  {
    HeapSize(ByDistance(), rest, f);
    assert f == {};
    forall v | c.Eligible(v) && Reachable(c.g, c.level, c.entry, v) ensures c.At(v) in b {
      var p :| Path(c.g, c.level, p) && p[0] == c.entry && p[|p| - 1] == v;
      PathStaysInside(c.g, c.level, visited, p);
    }
  }

  lemma FullIsEverything(c: Ctx, b: set<Candidate>)
    requires (forall x :: x in b ==> c.Eligible(x.id) && x == c.At(x.id)) && |b| >= |c.Live()|
    ensures forall v :: c.Eligible(v) ==> c.At(v) in b
  {
    var ids := set x | x in b :: x.id;
    SameSize(c, b, ids);
    assert ids <= c.Live();
    Sums.SubsetOfSameSize(ids, c.Live());
    forall v | c.Eligible(v) ensures c.At(v) in b {
      assert v in ids;
    }
  }

  lemma {:induction false} SameSize(c: Ctx, b: set<Candidate>, ids: set<Id>)
    requires (forall x :: x in b ==> x.id in c.g && x == c.At(x.id)) && ids == set x | x in b :: x.id
    ensures |ids| == |b|
  {
    if b != {} {
      var x :| x in b;
      SameSize(c, b - {x}, set y | y in b - {x} :: y.id);
      assert ids == (set y | y in b - {x} :: y.id) + {x.id};
      assert x.id !in (set y | y in b - {x} :: y.id);
    }
  }

  function Distance(g: Graph, dist: Metric, query: Vector, id: Id): real
    requires id in g
  {
    dist(query, g[id].vector)
  }

  ghost function CloserThan(g: Graph, dist: Metric, query: Vector, bound: real): set<Id> {
    set id | id in g && Distance(g, dist, query, id) < bound
  }

  lemma FewerCloser(g: Graph, dist: Metric, query: Vector, id: Id, bound: real)
    requires id in g && Distance(g, dist, query, id) < bound
    ensures |CloserThan(g, dist, query, Distance(g, dist, query, id))| < |CloserThan(g, dist, query, bound)|
  {
    var less, more := CloserThan(g, dist, query, Distance(g, dist, query, id)), CloserThan(g, dist, query, bound);
    assert id in more && id !in less && less <= more;
    assert more == less + (more - less);
    assert id in more - less;
  }

  /** No link at the level leads strictly closer to the query. */
  ghost predicate LocalMinimum(g: Graph, dist: Metric, query: Vector, id: Id, level: nat) {
    && HasLevel(g, id, level)
    && forall i :: 0 <= i < |g[id].neighbors[level]| ==>
         g[id].neighbors[level][i] in g && Distance(g, dist, query, id) <= Distance(g, dist, query, g[id].neighbors[level][i])
  }

  /** Look at every link of `from` and keep the closest node met. */
  method ScanLinks(g: Graph, dist: Metric, query: Vector, from: Id, level: nat) returns (r: Result<Id>)
    requires HasLevel(g, from, level)
    ensures LevelClosed(g, level) ==> r.Ok?
    ensures r.Ok? ==> r.value in g && Reachable(g, level, from, r.value)
    ensures r.Ok? && r.value == from ==> LocalMinimum(g, dist, query, from, level)
    ensures r.Ok? && r.value != from ==> Distance(g, dist, query, r.value) < Distance(g, dist, query, from)
  {
    ReachesSelf(g, level, from);
    var links := g[from].neighbors[level];
    var entry := from;
    for i := 0 to |links|
      invariant entry in g && Reachable(g, level, from, entry)
      invariant entry == from || Distance(g, dist, query, entry) < Distance(g, dist, query, from)
      invariant forall j :: 0 <= j < i ==> links[j] in g && Distance(g, dist, query, entry) <= Distance(g, dist, query, links[j])
    {
      var id := links[i];
      if id !in g {
        return Err(MissingNode(id));
      }
      if g[id].level < level {
        return Err(LinkToLowerLevel(id));
      }
      if Distance(g, dist, query, id) < Distance(g, dist, query, entry) {
        ReachStep(g, level, from, from, id);
        entry := id;
      }
    }
    r := Ok(entry);
  }

  /** Greedy descent stops at a local minimum of the layer. */
  method Greedy(g: Graph, dist: Metric, query: Vector, entry: Id, level: nat) returns (r: Result<Id>)
    ensures LevelClosed(g, level) && HasLevel(g, entry, level) ==> r.Ok?
    ensures r.Ok? ==> entry in g && LocalMinimum(g, dist, query, r.value, level)
                      && Reachable(g, level, entry, r.value)
                      && Distance(g, dist, query, r.value) <= Distance(g, dist, query, entry)
  {
    if entry !in g {
      return Err(MissingNode(entry));
    }
    ReachesSelf(g, level, entry);
    var at := entry;
    while true
      invariant at in g && Reachable(g, level, entry, at)
      invariant Distance(g, dist, query, at) <= Distance(g, dist, query, entry)
      decreases |CloserThan(g, dist, query, Distance(g, dist, query, at))|
    {
      ReachableHasLevel(Ctx(g, dist, query, entry, level, 1, 0), at);
      if !HasLevel(g, at, level) {
        return Err(LacksLevel(at));
      }
      var next := ScanLinks(g, dist, query, at, level);
      if next.Err? {
        return Err(next.reason);
      }
      if next.value == at {
        return Ok(at);
      }
      FewerCloser(g, dist, query, next.value, Distance(g, dist, query, at));
      ReachThrough(g, level, entry, at, next.value);
      at := next.value;
    }
  }

  lemma ReachThrough(g: Graph, level: nat, a: Id, b: Id, c: Id)
    requires Reachable(g, level, a, b) && Reachable(g, level, b, c)
    ensures Reachable(g, level, a, c)
  {
    var p :| Path(g, level, p) && p[0] == a && p[|p| - 1] == b;
    var q :| Path(g, level, q) && q[0] == b && q[|q| - 1] == c;
    var whole := p + q[1..];
    forall i | 0 <= i < |whole| - 1 ensures HasLevel(g, whole[i], level) && whole[i + 1] in g[whole[i]].neighbors[level] {
      if i >= |p| - 1 {
        assert whole[i] == q[i - (|p| - 1)];
        assert whole[i + 1] == q[i + 1 - (|p| - 1)];
      }
    }
    assert Path(g, level, whole);
  }
}
