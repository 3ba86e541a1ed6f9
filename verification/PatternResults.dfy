/** Lists of patterns: the result does not depend on their order, nor on seed nodes that repeat
    an endpoint. */
module PatternResults {

  import opened Orders
  import opened Graphs
  import opened Sums
  import opened Patterns
  import opened PatternAnswers
  import opened PatternExecution

  /** All rows that extend a row by one candidate for every pattern. */
  ghost function Results(g: Graph, ps: seq<Pattern>, row: Row): multiset<Row>
    decreases |ps|, 2
  {
    if ps == [] then multiset{row} else Sum(Step(g, ps, row), Candidates(g))
  }

  ghost function Step(g: Graph, ps: seq<Pattern>, row: Row): Candidate -> multiset<Row>
    requires ps != []
    decreases |ps|, 1
  {
    c => StepAt(g, ps, row, c)
  }

  ghost function StepAt(g: Graph, ps: seq<Pattern>, row: Row, c: Candidate): multiset<Row>
    requires ps != []
    decreases |ps|, 0
  {
    if Qualifies(g, ps[0], c) && Compatible(row, Solution(g, ps[0], c)) then Results(g, ps[1..], row + Solution(g, ps[0], c))
    else multiset{}
  }

  /** Two first patterns, a candidate each. */
  ghost function PairAt(g: Graph, p: Pattern, q: Pattern, rest: seq<Pattern>, row: Row, c: Candidate, d: Candidate): multiset<Row> {
    if Qualifies(g, p, c) && Qualifies(g, q, d) && Compatible(row, Solution(g, p, c)) && Compatible(row + Solution(g, p, c), Solution(g, q, d))
    then Results(g, rest, row + Solution(g, p, c) + Solution(g, q, d))
    else multiset{}
  }

  ghost function Pair(g: Graph, p: Pattern, q: Pattern, rest: seq<Pattern>, row: Row): (Candidate, Candidate) -> multiset<Row> {
    (c, d) => PairAt(g, p, q, rest, row, c, d)
  }

  lemma StepUnfolds(g: Graph, p: Pattern, rest: seq<Pattern>, row: Row, c: Candidate)
    ensures Step(g, [p] + rest, row)(c) ==
            if Qualifies(g, p, c) && Compatible(row, Solution(g, p, c)) then Results(g, rest, row + Solution(g, p, c)) else multiset{}
  {
    assert ([p] + rest)[1..] == rest;
  }

  lemma PairUnfolds(g: Graph, p: Pattern, q: Pattern, rest: seq<Pattern>, row: Row, c: Candidate, d: Candidate)
    requires Qualifies(g, p, c) && Compatible(row, Solution(g, p, c))
    ensures Step(g, [q] + rest, row + Solution(g, p, c))(d) == PairAt(g, p, q, rest, row, c, d)
  {
    StepUnfolds(g, q, rest, row + Solution(g, p, c), d);
  }

  lemma InnerWhenJoined(g: Graph, p: Pattern, q: Pattern, rest: seq<Pattern>, row: Row, c: Candidate, next: Row)
    requires Qualifies(g, p, c) && Compatible(row, Solution(g, p, c)) && next == row + Solution(g, p, c)
    ensures Results(g, [q] + rest, next) == Sum(Sums.Row(Pair(g, p, q, rest, row), c), Candidates(g))
  {
    var cs, f := Candidates(g), Sums.Row(Pair(g, p, q, rest, row), c);
    forall i | 0 <= i < |cs| ensures Step(g, [q] + rest, next)(cs[i]) == f(cs[i]) {
      PairUnfolds(g, p, q, rest, row, c, cs[i]);
    }
    SumExt(Step(g, [q] + rest, next), f, cs);
  }

  lemma StepIsInner(g: Graph, p: Pattern, q: Pattern, rest: seq<Pattern>, row: Row, c: Candidate)
    ensures Step(g, [p] + ([q] + rest), row)(c) == Inner(Pair(g, p, q, rest, row), Candidates(g))(c)
  {
    StepUnfolds(g, p, [q] + rest, row, c);
    if Qualifies(g, p, c) && Compatible(row, Solution(g, p, c)) {
      InnerWhenJoined(g, p, q, rest, row, c, row + Solution(g, p, c));
    } else {
      SumOfNone(Sums.Row(Pair(g, p, q, rest, row), c), Candidates(g));
    }
  }

  lemma ResultsOfPair(g: Graph, p: Pattern, q: Pattern, rest: seq<Pattern>, row: Row)
    ensures Results(g, [p, q] + rest, row) == Sum(Inner(Pair(g, p, q, rest, row), Candidates(g)), Candidates(g))
  {
    var ps, cs := [p] + ([q] + rest), Candidates(g);
    assert ps == [p, q] + rest;
    forall i | 0 <= i < |cs| ensures Step(g, ps, row)(cs[i]) == Inner(Pair(g, p, q, rest, row), cs)(cs[i]) {
      StepIsInner(g, p, q, rest, row, cs[i]);
    }
    SumExt(Step(g, ps, row), Inner(Pair(g, p, q, rest, row), cs), cs);
  }

  /** Joining two solutions does not depend on which comes first. */
  lemma JoinsCommute(row: Row, s: Row, t: Row)
    ensures Compatible(row, s) && Compatible(row + s, t) <==> Compatible(row, t) && Compatible(row + t, s)
    ensures Compatible(row, s) && Compatible(row + s, t) ==> row + s + t == row + t + s
  {
    if Compatible(row, s) && Compatible(row + s, t) { JoinsCommuteOneWay(row, s, t); }
    if Compatible(row, t) && Compatible(row + t, s) { JoinsCommuteOneWay(row, t, s); }
  }

  lemma JoinsCommuteOneWay(row: Row, s: Row, t: Row)
    requires Compatible(row, s) && Compatible(row + s, t)
    ensures Compatible(row, t) && Compatible(row + t, s) && row + s + t == row + t + s
  {
    forall x | x in row && x in t ensures row[x] == t[x] { assert x in row + s && (row + s)[x] == row[x]; }
    forall x | x in row + t && x in s ensures (row + t)[x] == s[x] { assert x in row + s && (row + s)[x] == s[x]; }
    var a, b := row + s + t, row + t + s;
    assert a.Keys == b.Keys;
    forall x | x in a ensures a[x] == b[x] {
      if x in t && x in s { assert x in row + s && (row + s)[x] == t[x]; }
    }
  }

  lemma PairsCommute(g: Graph, p: Pattern, q: Pattern, rest: seq<Pattern>, row: Row, c: Candidate, d: Candidate)
    ensures PairAt(g, p, q, rest, row, c, d) == PairAt(g, q, p, rest, row, d, c)
  {
    if Qualifies(g, p, c) && Qualifies(g, q, d) { JoinsCommute(row, Solution(g, p, c), Solution(g, q, d)); }
  }

  lemma InnerPairs(g: Graph, p: Pattern, q: Pattern, rest: seq<Pattern>, row: Row, cs: seq<Candidate>, d: Candidate)
    ensures Inner(Transposed(Pair(g, p, q, rest, row)), cs)(d) == Inner(Pair(g, q, p, rest, row), cs)(d)
  {
    var f, h := Transposed(Pair(g, p, q, rest, row)), Pair(g, q, p, rest, row);
    forall j | 0 <= j < |cs| ensures Sums.Row(f, d)(cs[j]) == Sums.Row(h, d)(cs[j]) {
      PairsCommute(g, p, q, rest, row, cs[j], d);
    }
    SumExt(Sums.Row(f, d), Sums.Row(h, d), cs);
  }

  /** The two first patterns can be exchanged. */
  lemma SwapFirst(g: Graph, p: Pattern, q: Pattern, rest: seq<Pattern>, row: Row)
    ensures Results(g, [p, q] + rest, row) == Results(g, [q, p] + rest, row)
  {
    var cs := Candidates(g);
    ResultsOfPair(g, p, q, rest, row);
    ResultsOfPair(g, q, p, rest, row);
    SumSwap(Pair(g, p, q, rest, row), cs, cs);
    forall i | 0 <= i < |cs| ensures Inner(Transposed(Pair(g, p, q, rest, row)), cs)(cs[i]) == Inner(Pair(g, q, p, rest, row), cs)(cs[i]) {
      InnerPairs(g, p, q, rest, row, cs, cs[i]);
    }
    SumExt(Inner(Transposed(Pair(g, p, q, rest, row)), cs), Inner(Pair(g, q, p, rest, row), cs), cs);
  }

  /** Two lists with the same results from every row. */
  ghost predicate Same(g: Graph, ps: seq<Pattern>, qs: seq<Pattern>) {
    forall row: Row :: Results(g, ps, row) == Results(g, qs, row)
  }

  /** After the first pattern, both lists have the same results. */
  ghost predicate Agree(g: Graph, p: Pattern, row: Row, ps: seq<Pattern>, qs: seq<Pattern>) {
    forall c :: Qualifies(g, p, c) && Compatible(row, Solution(g, p, c)) ==>
                  Results(g, ps, row + Solution(g, p, c)) == Results(g, qs, row + Solution(g, p, c))
  }

  lemma AgreeingSteps(g: Graph, p: Pattern, row: Row, ps: seq<Pattern>, qs: seq<Pattern>)
    requires Agree(g, p, row, ps, qs)
    ensures Results(g, [p] + ps, row) == Results(g, [p] + qs, row)
  {
    var cs := Candidates(g);
    forall i | 0 <= i < |cs| ensures Step(g, [p] + ps, row)(cs[i]) == Step(g, [p] + qs, row)(cs[i]) {
      StepUnfolds(g, p, ps, row, cs[i]);
      StepUnfolds(g, p, qs, row, cs[i]);
    }
    SumExt(Step(g, [p] + ps, row), Step(g, [p] + qs, row), cs);
  }

  lemma SamePrefix(g: Graph, p: Pattern, ps: seq<Pattern>, qs: seq<Pattern>)
    requires Same(g, ps, qs)
    ensures Same(g, [p] + ps, [p] + qs)
  {
    forall row: Row ensures Results(g, [p] + ps, row) == Results(g, [p] + qs, row) {
      AgreeingSteps(g, p, row, ps, qs);
    }
  }

  lemma SwapSame(g: Graph, p: Pattern, q: Pattern, rest: seq<Pattern>)
    ensures Same(g, [p, q] + rest, [q, p] + rest)
  {
    forall row: Row ensures Results(g, [p, q] + rest, row) == Results(g, [q, p] + rest, row) { SwapFirst(g, p, q, rest, row); }
  }

  lemma SameTrans(g: Graph, ps: seq<Pattern>, qs: seq<Pattern>, rs: seq<Pattern>)
    requires Same(g, ps, qs) && Same(g, qs, rs)
    ensures Same(g, ps, rs)
  {
    forall row: Row ensures Results(g, ps, row) == Results(g, rs, row) { assert Results(g, ps, row) == Results(g, qs, row); }
  }

  lemma {:induction false} MoveToFront(g: Graph, a: seq<Pattern>, p: Pattern, b: seq<Pattern>)
    ensures Same(g, a + ([p] + b), [p] + (a + b))
    decreases |a|
  {
    if a == [] {
      assert a + ([p] + b) == [p] + b && a + b == b;
    } else {
      var x, rest := a[0], a[1..];
      MoveToFront(g, rest, p, b);
      SamePrefix(g, x, rest + ([p] + b), [p] + (rest + b));
      SwapSame(g, x, p, rest + b);
      assert a + ([p] + b) == [x] + (rest + ([p] + b));
      assert [x] + ([p] + (rest + b)) == [x, p] + (rest + b);
      assert [p] + (a + b) == [p, x] + (rest + b);
      SameTrans(g, a + ([p] + b), [x, p] + (rest + b), [p] + (a + b));
    }
  }

  /** Any reordering of the patterns has the same results. */
  lemma {:induction false} ReorderedPatterns(g: Graph, ps: seq<Pattern>, qs: seq<Pattern>)
    requires multiset(ps) == multiset(qs)
    ensures Same(g, ps, qs)
    decreases |ps|
  {
    if ps == [] {
      assert |multiset(qs)| == 0;
    } else {
      var p, rest := ps[0], ps[1..];
      TailElements(ps);
      assert p in multiset(qs);
      var i :| 0 <= i < |qs| && qs[i] == p;
      var a, b := qs[..i], qs[i + 1..];
      assert qs == a + ([p] + b);
      MoveToFront(g, a, p, b);
      assert multiset(qs) == multiset{p} + multiset(a + b);
      CancelOne(p, multiset(rest), multiset(a + b));
      ReorderedPatterns(g, rest, a + b);
      SamePrefix(g, p, rest, a + b);
      assert ps == [p] + rest;
      SameTrans(g, ps, [p] + (a + b), qs);
    }
  }

  // Seed nodes.

  /** The row binds the name of the node pattern to a node that matches it. */
  ghost predicate Satisfied(g: Graph, np: NodePattern, row: Row) {
    np.name in row && row[np.name].NodeRef? && NodeMatches(g, np, row[np.name].id)
  }

  /** The node pattern is an end of the edge pattern. */
  predicate Anchors(p: Pattern, np: NodePattern) {
    p.Edge? && (p.left == np || p.right == np) && Roles(p) && np.name != ""
  }

  lemma SatisfiedPersists(g: Graph, np: NodePattern, row: Row, s: Row)
    requires Satisfied(g, np, row) && Compatible(row, s)
    ensures Satisfied(g, np, row + s)
  {
  }

  lemma AnchorSatisfies(g: Graph, p: Pattern, np: NodePattern, row: Row, c: Candidate)
    requires Anchors(p, np) && Qualifies(g, p, c)
    ensures Satisfied(g, np, row + Solution(g, p, c))
  {
    var s := Solution(g, p, c);
    assert np.name in s;
  }

  /** One pattern's results are its extensions. */
  lemma ResultsOfOne(g: Graph, p: Pattern, row: Row)
    ensures Results(g, [p], row) == Extensions(g, p, row)
  {
    var cs := Candidates(g);
    assert [p] + [] == [p];
    forall i | 0 <= i < |cs| ensures Step(g, [p], row)(cs[i]) == Contributions(g, p, row)(cs[i]) {
      StepOfOne(g, p, row, cs[i]);
    }
    SumExt(Step(g, [p], row), Contributions(g, p, row), cs);
  }

  lemma StepOfOne(g: Graph, p: Pattern, row: Row, c: Candidate)
    ensures Step(g, [p], row)(c) == Contribution(g, p, row, c)
  {
    assert [p] + [] == [p];
    StepUnfolds(g, p, [], row, c);
  }

  /** A seed whose name is already bound to a matching node keeps the row as it is. */
  lemma SeedKeepsRow(g: Graph, np: NodePattern, row: Row)
    requires Satisfied(g, np, row) && np.name != ""
    ensures Results(g, [Vertex(np)], row) == multiset{row}
  {
    var p, n := Vertex(np), row[np.name].id;
    var nodes := SeqOf(multiset(g.nodes.Keys));
    SeqOfListing(g.nodes.Keys);
    ResultsOfOne(g, p, row);
    RowMeaning(g, p, row, nodes);
    SameShare(g, p, row, nodes);
    var f := NodeShare(g, p, row);
    forall x: nat ensures f(x) == if x == n then multiset{row} else multiset{} { OneNode(g, np, row, x); }
    SumSupport(f, nodes, [n]);
    SumCons(f, n, []);
    assert [n] + [] == [n];
  }

  lemma OneNode(g: Graph, np: NodePattern, row: Row, x: nat)
    requires Satisfied(g, np, row) && np.name != ""
    ensures NodeShare(g, Vertex(np), row)(x) == if x == row[np.name].id then multiset{row} else multiset{}
  {
    var s := map[np.name := NodeRef(x)];
    assert np.name in s;
    if x == row[np.name].id { assert row + s == row; }
  }

  lemma {:induction false} SeedLast(g: Graph, ps: seq<Pattern>, np: NodePattern, row: Row)
    requires Satisfied(g, np, row) && np.name != ""
    ensures Results(g, ps + [Vertex(np)], row) == Results(g, ps, row)
    decreases |ps|
  {
    var seed := [Vertex(np)];
    if ps == [] {
      assert ps + seed == seed;
      SeedKeepsRow(g, np, row);
    } else {
      var p, rest := ps[0], ps[1..];
      forall c | Qualifies(g, p, c) && Compatible(row, Solution(g, p, c))
        ensures Results(g, rest + seed, row + Solution(g, p, c)) == Results(g, rest, row + Solution(g, p, c)) {
        SatisfiedPersists(g, np, row, Solution(g, p, c));
        SeedLast(g, rest, np, row + Solution(g, p, c));
      }
      AgreeingSteps(g, p, row, rest + seed, rest);
      assert ps == [p] + rest && ps + seed == [p] + (rest + seed);
    }
  }

  /** A seed that repeats an end of one of the patterns adds and removes nothing. */
  lemma {:induction false} SeedAfter(g: Graph, ps: seq<Pattern>, np: NodePattern, k: nat, row: Row)
    requires k < |ps| && Anchors(ps[k], np)
    ensures Results(g, ps + [Vertex(np)], row) == Results(g, ps, row)
    decreases k
  {
    var seed, p, rest := [Vertex(np)], ps[0], ps[1..];
    forall c | Qualifies(g, p, c) && Compatible(row, Solution(g, p, c))
      ensures Results(g, rest + seed, row + Solution(g, p, c)) == Results(g, rest, row + Solution(g, p, c)) {
      if k == 0 {
        AnchorSatisfies(g, p, np, row, c);
        SeedLast(g, rest, np, row + Solution(g, p, c));
      } else {
        SeedAfter(g, rest, np, k - 1, row + Solution(g, p, c));
      }
    }
    AgreeingSteps(g, p, row, rest + seed, rest);
    assert ps == [p] + rest && ps + seed == [p] + (rest + seed);
  }

  function Vertices(seeds: seq<NodePattern>): seq<Pattern> {
    seq(|seeds|, i requires 0 <= i < |seeds| => Vertex(seeds[i]))
  }

  ghost predicate Anchored(ps: seq<Pattern>, np: NodePattern) {
    exists k :: 0 <= k < |ps| && Anchors(ps[k], np)
  }

  lemma {:induction false} AddSeeds(g: Graph, ps: seq<Pattern>, seeds: seq<NodePattern>)
    requires forall i :: 0 <= i < |seeds| ==> Anchored(ps, seeds[i])
    ensures Same(g, ps + Vertices(seeds), ps)
    decreases |seeds|
  {
    if seeds == [] {
      assert ps + Vertices(seeds) == ps;
    } else {
      var n := |seeds| - 1;
      var fewer, np := seeds[..n], seeds[n];
      AddSeeds(g, ps, fewer);
      var qs := ps + Vertices(fewer);
      assert ps + Vertices(seeds) == qs + [Vertex(np)];
      var k :| 0 <= k < |ps| && Anchors(ps[k], np);
      assert qs[k] == ps[k];
      forall row: Row ensures Results(g, qs + [Vertex(np)], row) == Results(g, qs, row) { SeedAfter(g, qs, np, k, row); }
      SameTrans(g, ps + Vertices(seeds), qs, ps);
    }
  }

  /** Any order of the patterns, with any seeds that repeat ends of patterns mixed in, has the
      same rows with the same multiplicities. */
  lemma PlannedPatterns(g: Graph, ps: seq<Pattern>, seeds: seq<NodePattern>, ordered: seq<Pattern>)
    requires multiset(ordered) == multiset(ps) + multiset(Vertices(seeds))
    requires forall i :: 0 <= i < |seeds| ==> Anchored(ps, seeds[i])
    ensures Same(g, ordered, ps)
  {
    assert multiset(ps + Vertices(seeds)) == multiset(ordered);
    ReorderedPatterns(g, ordered, ps + Vertices(seeds));
    AddSeeds(g, ps, seeds);
    SameTrans(g, ordered, ps + Vertices(seeds), ps);
  }

  // Running a list of patterns.

  ghost function ResultsFrom(g: Graph, ps: seq<Pattern>): Row -> multiset<Row> {
    row => Results(g, ps, row)
  }

  lemma SumOfFew<A, B>(h: A -> multiset<B>, m: multiset<A>)
    ensures m == multiset{} ==> Sum(h, SeqOf(m)) == multiset{}
    ensures forall r :: m == multiset{r} ==> Sum(h, SeqOf(m)) == h(r)
  {
    var s := SeqOf(m);
    assert |s| == |multiset(s)|;
    forall r | m == multiset{r} ensures Sum(h, s) == h(r) {
      assert s[0] in multiset(s);
      assert s == [r] + [];
      SumCons(h, r, []);
    }
  }

  lemma CandidateThenRest(g: Graph, p: Pattern, rest: seq<Pattern>, row: Row, c: Candidate)
    ensures Chain(Contributions(g, p, row), ResultsFrom(g, rest))(c) == Step(g, [p] + rest, row)(c)
  {
    StepUnfolds(g, p, rest, row, c);
    SumOfFew(ResultsFrom(g, rest), Contribution(g, p, row, c));
  }

  lemma RowThenRest(g: Graph, p: Pattern, rest: seq<Pattern>, row: Row)
    ensures Sum(ResultsFrom(g, rest), SeqOf(Extensions(g, p, row))) == Results(g, [p] + rest, row)
  {
    var cs, next := Candidates(g), SeqOf(Extensions(g, p, row));
    SumChain(Contributions(g, p, row), ResultsFrom(g, rest), cs, next);
    forall i | 0 <= i < |cs| ensures Chain(Contributions(g, p, row), ResultsFrom(g, rest))(cs[i]) == Step(g, [p] + rest, row)(cs[i]) {
      CandidateThenRest(g, p, rest, row, cs[i]);
    }
    SumExt(Chain(Contributions(g, p, row), ResultsFrom(g, rest)), Step(g, [p] + rest, row), cs);
  }

  lemma ApplyThenRest(g: Graph, p: Pattern, rest: seq<Pattern>, rows: seq<Row>, next: seq<Row>)
    requires multiset(next) == Sum(Meaning(g, p), rows)
    ensures Sum(ResultsFrom(g, rest), next) == Sum(ResultsFrom(g, [p] + rest), rows)
  {
    SumChain(Meaning(g, p), ResultsFrom(g, rest), rows, next);
    forall i | 0 <= i < |rows| ensures Chain(Meaning(g, p), ResultsFrom(g, rest))(rows[i]) == ResultsFrom(g, [p] + rest)(rows[i]) {
      RowThenRest(g, p, rest, rows[i]);
    }
    SumExt(Chain(Meaning(g, p), ResultsFrom(g, rest)), ResultsFrom(g, [p] + rest), rows);
  }

  lemma {:induction false} NoPatternsLeft(g: Graph, rows: seq<Row>)
    ensures Sum(ResultsFrom(g, []), rows) == multiset(rows)
  {
    if rows != [] {
      NoPatternsLeft(g, rows[1..]);
      TailElements(rows);
    }
  }

  /** A row leads to another through answers to a list of patterns, one after the other. */
  ghost predicate Solved(g: Graph, ps: seq<Pattern>, row: Row, last: Row) {
    exists path :: AnswerPath(g, ps, row, path, last)
  }

  ghost predicate AnswerPath(g: Graph, ps: seq<Pattern>, row: Row, path: seq<Row>, last: Row) {
    |path| == |ps| + 1 && path[0] == row && path[|ps|] == last && forall i :: 0 <= i < |ps| ==> AnsweredAt(g, ps, path, i)
  }

  ghost predicate AnsweredAt(g: Graph, ps: seq<Pattern>, path: seq<Row>, i: nat)
    requires i < |ps| && |path| == |ps| + 1
  {
    Answered(g, ps[i], path[i], path[i + 1])
  }

  lemma FirstThenRest(g: Graph, ps: seq<Pattern>, p: Pattern, rest: seq<Pattern>, row: Row, last: Row) returns (next: Row)
    requires ps == [p] + rest && last in Results(g, ps, row)
    ensures next in Extensions(g, p, row) && last in Results(g, rest, next)
  {
    var nexts := SeqOf(Extensions(g, p, row));
    RowThenRest(g, p, rest, row);
    InSum(ResultsFrom(g, rest), nexts, last);
    var i :| 0 <= i < |nexts| && last in ResultsFrom(g, rest)(nexts[i]);
    next := nexts[i];
    assert next in multiset(nexts);
  }

  lemma RestAfterFirst(g: Graph, ps: seq<Pattern>, p: Pattern, rest: seq<Pattern>, row: Row, next: Row, last: Row)
    requires ps == [p] + rest && next in Extensions(g, p, row) && last in Results(g, rest, next)
    ensures last in Results(g, ps, row)
  {
    var nexts := SeqOf(Extensions(g, p, row));
    assert next in multiset(nexts);
    var i :| 0 <= i < |nexts| && nexts[i] == next;
    InSumAt(ResultsFrom(g, rest), nexts, i, last);
    RowThenRest(g, p, rest, row);
  }

  ghost predicate AllRoles(ps: seq<Pattern>) {
    forall i :: 0 <= i < |ps| ==> Roles(ps[i])
  }

  lemma PathFrom(g: Graph, ps: seq<Pattern>, row: Row, next: Row, rest: seq<Row>, last: Row)
    requires ps != [] && Answered(g, ps[0], row, next) && AnswerPath(g, ps[1..], next, rest, last)
    ensures AnswerPath(g, ps, row, [row] + rest, last)
  {
    var path := [row] + rest;
    forall i | 0 <= i < |ps| ensures AnsweredAt(g, ps, path, i) {
      if i > 0 { assert AnsweredAt(g, ps[1..], rest, i - 1); }
    }
  }

  lemma PathAfter(g: Graph, ps: seq<Pattern>, row: Row, path: seq<Row>, last: Row)
    requires ps != [] && AnswerPath(g, ps, row, path, last)
    ensures Answered(g, ps[0], row, path[1]) && AnswerPath(g, ps[1..], path[1], path[1..], last)
  {
    assert AnsweredAt(g, ps, path, 0);
    forall i | 0 <= i < |ps| - 1 ensures AnsweredAt(g, ps[1..], path[1..], i) { assert AnsweredAt(g, ps, path, i + 1); }
  }

  lemma {:induction false} ResultHasPath(g: Graph, ps: seq<Pattern>, row: Row, last: Row) returns (path: seq<Row>)
    requires AllRoles(ps) && last in Results(g, ps, row)
    ensures AnswerPath(g, ps, row, path, last)
    decreases |ps|
  {
    path := [row];
    if ps != [] {
      var next := FirstAnswer(g, ps, row, last);
      var rest := ResultHasPath(g, ps[1..], next, last);
      PathFrom(g, ps, row, next, rest, last);
      path := [row] + rest;
    }
  }

  lemma FirstAnswer(g: Graph, ps: seq<Pattern>, row: Row, last: Row) returns (next: Row)
    requires ps != [] && Roles(ps[0]) && last in Results(g, ps, row)
    ensures Answered(g, ps[0], row, next) && last in Results(g, ps[1..], next)
  {
    assert ps == [ps[0]] + ps[1..];
    next := FirstThenRest(g, ps, ps[0], ps[1..], row, last);
    AnswersAreExtensions(g, ps[0], row, next);
  }

  lemma SolvedThen(g: Graph, ps: seq<Pattern>, row: Row, next: Row, last: Row)
    requires ps != [] && Roles(ps[0]) && Answered(g, ps[0], row, next) && last in Results(g, ps[1..], next)
    ensures last in Results(g, ps, row)
  {
    assert ps == [ps[0]] + ps[1..];
    AnswersAreExtensions(g, ps[0], row, next);
    RestAfterFirst(g, ps, ps[0], ps[1..], row, next, last);
  }

  lemma {:induction false} PathGivesResult(g: Graph, ps: seq<Pattern>, row: Row, path: seq<Row>, last: Row)
    requires AllRoles(ps) && AnswerPath(g, ps, row, path, last)
    ensures last in Results(g, ps, row)
    decreases |ps|
  {
    if ps != [] {
      PathAfter(g, ps, row, path, last);
      PathGivesResult(g, ps[1..], path[1], path[1..], last);
      SolvedThen(g, ps, row, path[1], last);
    }
  }

  /** The join of all patterns holds exactly the rows that answer them one after the other. */
  lemma ResultsAreSolved(g: Graph, ps: seq<Pattern>, row: Row, last: Row)
    requires AllRoles(ps)
    ensures last in Results(g, ps, row) <==> Solved(g, ps, row, last)
  {
    if last in Results(g, ps, row) { var path := ResultHasPath(g, ps, row, last); }
    if path :| AnswerPath(g, ps, row, path, last) { PathGivesResult(g, ps, row, path, last); }
  }

  ghost predicate SolvedBy(g: Graph, ps: seq<Pattern>, input: seq<Row>, last: Row) {
    exists i :: 0 <= i < |input| && Solved(g, ps, input[i], last)
  }

  lemma AllSolved(g: Graph, ps: seq<Pattern>, input: seq<Row>, rows: seq<Row>, last: Row)
    requires multiset(rows) == Sum(ResultsFrom(g, ps), input) && forall i :: 0 <= i < |ps| ==> Roles(ps[i])
    ensures last in rows <==> SolvedBy(g, ps, input, last)
  {
    assert last in rows <==> last in multiset(rows);
    InSum(ResultsFrom(g, ps), input, last);
    forall i | 0 <= i < |input| ensures last in ResultsFrom(g, ps)(input[i]) <==> Solved(g, ps, input[i], last) { ResultsAreSolved(g, ps, input[i], last); }
  }

  /** Run the patterns one after the other over all rows. */
  method RunPatterns(g: Graph, ps: seq<Pattern>, input: seq<Row>) returns (rows: seq<Row>)
    requires Exact(g) && forall i :: 0 <= i < |ps| ==> Roles(ps[i])
    ensures multiset(rows) == Sum(ResultsFrom(g, ps), input)
    ensures forall r :: r in rows <==> SolvedBy(g, ps, input, r)
  {
    rows := RunInOrder(g, ps, input);
    forall r ensures r in rows <==> SolvedBy(g, ps, input, r) { AllSolved(g, ps, input, rows, r); }
  }

  method RunInOrder(g: Graph, ps: seq<Pattern>, input: seq<Row>) returns (rows: seq<Row>)
    requires Exact(g) && forall i :: 0 <= i < |ps| ==> Roles(ps[i])
    ensures multiset(rows) == Sum(ResultsFrom(g, ps), input)
  {
    rows := input;
    ghost var rest, total := ps, Sum(ResultsFrom(g, ps), input);
    for i := 0 to |ps|
      invariant rest == ps[i..] && Sum(ResultsFrom(g, rest), rows) == total
    {
      var p := ps[i];
      assert rest == [p] + rest[1..];
      var next;
      if p.Vertex? {
        next := ApplyNode(g, p, rows);
      } else {
        next := ApplyEdge(g, p, rows);
      }
      ApplyThenRest(g, p, rest[1..], rows, next);
      rows := next;
      rest := rest[1..];
    }
    NoPatternsLeft(g, rows);
  }
}
