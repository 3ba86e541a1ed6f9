/** The two ways a full-text query runs, over the whole corpus and over posting lists, with the
    bounded heap and the in-place sort. Both return the same ranked list. */
module FullTextSearch {

  import opened Orders
  import opened Sums
  import opened Heaps
  import opened FullText
  import Sorting

  // Ranking.

  /** The heap holds the best of the results seen. */
  ghost predicate Kept(heap: seq<Result>, seen: multiset<Result>, limit: nat) {
    var heaped, best := IsHeap(Flip(ResultLe), heap), Best(ResultLe, multiset(heap), seen, limit);
    heaped && |heap| <= limit && best
  }

  method PushResult(heap: seq<Result>, r: Result, limit: nat, ghost seen: multiset<Result>) returns (h: seq<Result>)
    requires Kept(heap, seen, limit)
    ensures Kept(h, seen + multiset{r}, limit)
  {
    ResultsAreOrdered();
    h := PushBounded(ResultLe, heap, r, limit);
    BestStep(ResultLe, multiset(heap), seen, limit, r, multiset(h));
  }

  /** Sort what the heap kept, in place. */
  method SortResults(heap: seq<Result>, ghost seen: multiset<Result>, limit: nat) returns (sorted: seq<Result>)
    requires Kept(heap, seen, limit)
    ensures sorted == SortBy(ResultLe, SeqOf(seen))[..Least(limit, |SeqOf(seen)|)]
  {
    ResultsAreOrdered();
    var results := new Result[|heap|](i requires 0 <= i < |heap| => heap[i]);
    assert results[..] == heap;
    Sorting.MergeSort(ResultLe, results);
    sorted := results[..];
    BestIsPrefix(heap, seen, limit);
  }

  lemma BestIsPrefix(heap: seq<Result>, seen: multiset<Result>, limit: nat)
    requires Best(ResultLe, multiset(heap), seen, limit) && TotalOrder(ResultLe)
    ensures SortBy(ResultLe, heap) == SortBy(ResultLe, SeqOf(seen))[..Least(limit, |SeqOf(seen)|)]
  {
    var all, best := SeqOf(seen), SortBy(ResultLe, heap);
    SortBySorts(ResultLe, heap);
    SortByElements(ResultLe, heap);
    OrderOn(ResultLe, multiset(all));
    SortedSplit(ResultLe, best, all);
    assert |multiset(heap)| == |heap| && |multiset(all)| == |all|;
  }

  // Scanning the corpus.

  method CountMatches(o: Options, tokens: seq<Token>, term: Token) returns (n: nat)
    ensures n == Occurrences(o, tokens, term)
  {
    n := 0;
    for i := 0 to |tokens|
      invariant n == Occurrences(o, tokens[..i], term)
    {
      assert tokens[..i + 1][..i] == tokens[..i];
      var hit := FuzzyMatch(o, term, tokens[i]);
      if hit {
        n := n + 1;
      }
    }
    assert tokens[..|tokens|] == tokens;
  }

  method CountTokens(tokens: seq<Token>) returns (counts: map<Token, nat>)
    ensures forall t :: t in counts <==> t in tokens
    ensures forall t :: t in counts ==> counts[t] == Count(tokens, t)
  {
    counts := map[];
    for i := 0 to |tokens|
      invariant forall t :: t in counts <==> t in tokens[..i]
      invariant forall t :: Count(tokens[..i], t) == if t in counts then counts[t] else 0
    {
      assert tokens[..i + 1][..i] == tokens[..i] && tokens[..i + 1] == tokens[..i] + [tokens[i]];
      var t := tokens[i];
      counts := counts[t := (if t in counts then counts[t] else 0) + 1];
    }
    assert tokens[..|tokens|] == tokens;
  }

  /** The largest weight over a set of tokens met in any order. */
  method BestCount(o: Options, tokens: seq<Token>, counts: map<Token, nat>, term: Token) returns (best: nat)
    requires forall t :: t in counts <==> t in tokens
    requires forall t :: t in counts ==> counts[t] == Count(tokens, t)
    ensures best == Peak(o, tokens, term, |tokens|)
  {
    best := 0;
    var rest := counts.Keys;
    while rest != {}
      invariant rest <= counts.Keys
      invariant forall t :: t in counts && t !in rest ==> Weight(o, tokens, term, t) <= best
      invariant best == 0 || exists t :: t in counts && Weight(o, tokens, term, t) == best
      decreases |rest|
    {
      var t :| t in rest;
      var hit := FuzzyMatch(o, term, t);
      if hit && counts[t] > best {
        best := counts[t];
        assert t in counts && Weight(o, tokens, term, t) == best;
      }
      rest := rest - {t};
    }
    BestIsPeak(o, tokens, term, best);
  }

  lemma BestIsPeak(o: Options, tokens: seq<Token>, term: Token, best: nat)
    requires forall t :: t in tokens ==> Weight(o, tokens, term, t) <= best
    requires best == 0 || exists t :: t in tokens && Weight(o, tokens, term, t) == best
    ensures best == Peak(o, tokens, term, |tokens|)
  {
    PeakIsLargest(o, tokens, term, |tokens|);
    assert tokens[..|tokens|] == tokens;
    if best > 0 {
      var t :| t in tokens && Weight(o, tokens, term, t) == best;
      var i :| 0 <= i < |tokens| && tokens[i] == t;
      assert Weight(o, tokens, term, tokens[i]) <= Peak(o, tokens, term, |tokens|);
    }
    if Peak(o, tokens, term, |tokens|) > 0 {
      var i :| 0 <= i < |tokens| && Weight(o, tokens, term, tokens[i]) == Peak(o, tokens, term, |tokens|);
      assert tokens[i] in tokens;
    }
  }

  method TermFrequencies(o: Options, tokens: seq<Token>, terms: seq<Token>) returns (f: seq<nat>)
    ensures f == Frequencies(o, tokens, terms)
  {
    f := [];
    var counts := CountTokens(tokens);
    for i := 0 to |terms|
      invariant |f| == i && forall j :: 0 <= j < i ==> f[j] == Frequency(o, tokens, terms[j])
    {
      var n;
      if TakesBest(o) {
        n := BestCount(o, tokens, counts, terms[i]);
      } else {
        n := CountMatches(o, tokens, terms[i]);
      }
      f := f + [n];
    }
  }

  /** Documents among `ids` that contain the term. */
  ghost function Containing(o: Options, c: Corpus, term: Token, ids: set<nat>): set<nat> {
    set id | id in ids && id in c && Frequency(o, c[id], term) != 0
  }

  ghost predicate CountsContaining(o: Options, c: Corpus, terms: seq<Token>, ids: set<nat>, df: seq<nat>) {
    |df| == |terms| && forall i :: 0 <= i < |terms| ==> df[i] == |Containing(o, c, terms[i], ids)|
  }

  /** Count one more document. */
  function CountDocument(df: seq<nat>, f: seq<nat>): seq<nat>
    requires |df| == |f|
  {
    seq(|df|, i requires 0 <= i < |df| => if f[i] != 0 then df[i] + 1 else df[i])
  }

  lemma CountOne(o: Options, c: Corpus, terms: seq<Token>, ids: set<nat>, df: seq<nat>, id: nat)
    requires CountsContaining(o, c, terms, ids, df) && id in c && id !in ids
    ensures CountsContaining(o, c, terms, ids + {id}, CountDocument(df, Frequencies(o, c[id], terms)))
  {
    var f := Frequencies(o, c[id], terms);
    forall i | 0 <= i < |terms| ensures CountDocument(df, f)[i] == |Containing(o, c, terms[i], ids + {id})| {
      var before, after := Containing(o, c, terms[i], ids), Containing(o, c, terms[i], ids + {id});
      if f[i] != 0 {
        assert after == before + {id};
      } else {
        assert after == before;
      }
    }
  }

  lemma NoneCounted(o: Options, c: Corpus, terms: seq<Token>)
    ensures CountsContaining(o, c, terms, {}, seq(|terms|, i => 0))
  {
    forall i | 0 <= i < |terms| ensures |Containing(o, c, terms[i], {})| == 0 { assert Containing(o, c, terms[i], {}) == {}; }
  }

  lemma AllCounted(o: Options, c: Corpus, terms: seq<Token>, ids: set<nat>, df: seq<nat>)
    requires CountsContaining(o, c, terms, ids, df)
    requires forall id :: id in c && id !in ids ==> AllZero(Frequencies(o, c[id], terms))
    ensures df == DocumentFrequencies(o, c, terms)
  {
    forall i | 0 <= i < |terms| ensures df[i] == DocumentFrequency(o, c, terms[i]) {
      assert Containing(o, c, terms[i], ids) == DocumentsWith(o, c, terms[i]);
    }
  }

  function IDs(ids: seq<nat>, n: nat): set<nat>
    requires n <= |ids|
  {
    set i | 0 <= i < n :: ids[i]
  }

  lemma OneMoreID(ids: seq<nat>, n: nat)
    requires n < |ids| && Distinct(ids)
    ensures IDs(ids, n + 1) == IDs(ids, n) + {ids[n]} && ids[n] !in IDs(ids, n)
  {
  }

  /** First pass over the corpus: documents per term, and the total length. */
  method CorpusStats(o: Options, c: Corpus, terms: seq<Token>, ids: seq<nat>) returns (df: seq<nat>, total: nat)
    requires Listing(ids, c.Keys)
    ensures df == DocumentFrequencies(o, c, terms) && total == TotalLength(c)
  {
    df, total := seq(|terms|, i => 0), 0;
    ghost var lengths := TokensOf(c);
    NoneCounted(o, c, terms);
    assert IDs(ids, 0) == {};
    for i := 0 to |ids|
      invariant CountsContaining(o, c, terms, IDs(ids, i), df)
      invariant total == Least(|Sum(lengths, ids[..i])|, MAX_UINT64)
    {
      var tokens := c[ids[i]];
      var f := TermFrequencies(o, tokens, terms);
      OneMoreID(ids, i);
      CountOne(o, c, terms, IDs(ids, i), df, ids[i]);
      SumSnoc(lengths, ids, i);
      AddLength(Sum(lengths, ids[..i]), tokens);
      df := CountDocument(df, f);
      total := SaturatingAdd(total, |tokens|);
    }
    AllCounted(o, c, terms, IDs(ids, |ids|), df);
    assert ids[..|ids|] == ids;
    SeqOfListing(c.Keys);
    SumSupport(lengths, ids, SeqOf(multiset(c.Keys)));
  }

  lemma AddLength(m: multiset<Token>, tokens: seq<Token>)
    ensures |m + multiset(tokens)| == |m| + |tokens|
  {
    assert |multiset(tokens)| == |tokens|;
  }

  // The results, document by document.

  /** Scores computed with the right frequencies and, where they matter, the right statistics. */
  ghost predicate RightStats(o: Options, c: Corpus, terms: seq<Token>, df: seq<nat>, documents: nat, total: nat) {
    !o.byFrequency ==> df == DocumentFrequencies(o, c, terms) && documents == |c| && total == TotalLength(c)
  }

  /** Score a document and offer it to the heap if its score is positive. */
  method OfferDocument(o: Options, heap: seq<Result>, id: nat, f: seq<nat>, length: nat, df: seq<nat>, documents: nat, total: nat,
                       ghost c: Corpus, ghost terms: seq<Token>, ghost seen: multiset<Result>) returns (h: seq<Result>)
    requires id in c && f == Frequencies(o, c[id], terms) && length == |c[id]| && RightStats(o, c, terms, df, documents, total)
    requires Kept(heap, seen, Limit(o))
    ensures Kept(h, seen + ResultOf(o, c, terms, id), Limit(o))
  {
    var score := ScoreDocument(o, f, df, length, documents, total);
    assert score == ScoreOf(o, c, terms, id);
    h := heap;
    if score > 0.0 {
      h := PushResult(heap, Result(id, o.rounded(score)), Limit(o), seen);
    } else {
      assert seen + multiset{} == seen;
    }
  }

  lemma NothingKept(limit: nat)
    ensures Kept([], multiset{}, limit)
  {
  }

  lemma NoResults(o: Options, c: Corpus, terms: seq<Token>)
    requires forall id :: id in c ==> ResultOf(o, c, terms, id) == multiset{}
    ensures Ranked(o, c, terms) == []
  {
    var all := SeqOf(multiset(c.Keys));
    SeqOfListing(c.Keys);
    forall i | 0 <= i < |all| ensures ResultsOf(o, c, terms)(all[i]) == multiset{} { assert all[i] in all; }
    SumOfNone(ResultsOf(o, c, terms), all);
    var none := SeqOf(Scored(o, c, terms));
    assert |none| == |multiset(none)| == 0;
  }

  /** The scan: every document of the corpus, in any order. */
  method ScanSearch(o: Options, c: Corpus, terms: seq<Token>, ids: seq<nat>) returns (r: seq<Result>)
    requires Listing(ids, c.Keys)
    ensures r == Ranked(o, c, terms)
  {
    if terms == [] {
      forall id | id in c ensures ResultOf(o, c, terms, id) == multiset{} { DocumentScoresZero(o, c, terms, id); }
      NoResults(o, c, terms);
      return [];
    }
    var df: seq<nat>, documents: nat, total: nat := [], 0, 0;
    if !o.byFrequency {
      df, total := CorpusStats(o, c, terms, ids);
      documents := |c|;
      if documents == 0 || total == 0 {
        NoResults(o, c, terms);
        return [];
      }
    }
    r := ScanDocuments(o, c, terms, ids, df, documents, total);
  }

  method ScanDocuments(o: Options, c: Corpus, terms: seq<Token>, ids: seq<nat>, df: seq<nat>, documents: nat, total: nat) returns (r: seq<Result>)
    requires Listing(ids, c.Keys) && RightStats(o, c, terms, df, documents, total)
    ensures r == Ranked(o, c, terms)
  {
    var heap: seq<Result> := [];
    ghost var results, seen := ResultsOf(o, c, terms), multiset{};
    NothingKept(Limit(o));
    for i := 0 to |ids|
      invariant seen == Sum(results, ids[..i]) && Kept(heap, seen, Limit(o))
    {
      var f := TermFrequencies(o, c[ids[i]], terms);
      heap := OfferDocument(o, heap, ids[i], f, |c[ids[i]]|, df, documents, total, c, terms, seen);
      SumSnoc(results, ids, i);
      seen := seen + ResultOf(o, c, terms, ids[i]);
    }
    r := SortResults(heap, seen, Limit(o));
    assert ids[..|ids|] == ids;
    SeqOfListing(c.Keys);
    SumSupport(results, ids, SeqOf(multiset(c.Keys)));
  }

  // Posting lists.

  datatype Posting = Posting(id: nat, length: nat, frequency: nat)

  type Index = map<Token, seq<Posting>>

  function PostingsOf(index: Index, t: Token): seq<Posting> { if t in index then index[t] else [] }

  ghost predicate OnePerDocument(postings: seq<Posting>) {
    forall i, j :: 0 <= i < j < |postings| ==> postings[i].id != postings[j].id
  }

  /** The postings of a token: one for every document that contains it, with its count there and
      the length of the document. */
  ghost predicate PostingsExact(c: Corpus, t: Token, postings: seq<Posting>) {
    && OnePerDocument(postings)
    && (forall i :: 0 <= i < |postings| ==> var p := postings[i]; p.id in c && p.length == |c[p.id]| && p.frequency == Count(c[p.id], t))
    && (forall id :: id in c && Count(c[id], t) > 0 ==> exists i :: 0 <= i < |postings| && postings[i].id == id)
  }

  ghost predicate IndexExact(c: Corpus, index: Index) {
    && (forall t: Token :: PostingsExact(c, t, PostingsOf(index, t)))
    && (forall id, i :: id in c && 0 <= i < |c[id]| ==> c[id][i] in index)
  }

  /** The list names every token that could matter to the query. */
  ghost predicate ListsAll(o: Options, c: Corpus, terms: seq<Token>, list: seq<Token>) {
    forall id, i :: id in c && 0 <= i < |terms| ==> FullText.Lists(o, c[id], terms[i], list)
  }

  /** Exact search looks a term up as it is, yet matches its lower-case form: that form has to be
      among the terms, or in no document. Terms that lower-casing leaves alone always qualify. */
  ghost predicate Findable(o: Options, c: Corpus, terms: seq<Token>) {
    o.maxDistance == 0 ==> forall id, i :: id in c && 0 <= i < |terms| && o.lower(terms[i]) in c[id] ==> o.lower(terms[i]) in terms
  }

  lemma LowerCaseIsFindable(o: Options, c: Corpus, terms: seq<Token>)
    requires forall i :: 0 <= i < |terms| ==> o.lower(terms[i]) == terms[i]
    ensures Findable(o, c, terms)
  {
  }

  lemma FindableIsListed(o: Options, c: Corpus, terms: seq<Token>, list: seq<Token>)
    requires o.maxDistance == 0 && Findable(o, c, terms) && Distinct(list) && forall t :: t in list <==> t in terms
    ensures ListsAll(o, c, terms, list)
  {
    forall id, i | id in c && 0 <= i < |terms| ensures FullText.Lists(o, c[id], terms[i], list) {
      forall j | 0 <= j < |c[id]| && Matches(o, terms[i], c[id][j]) ensures c[id][j] in list {
        assert o.lower(terms[i]) in c[id];
      }
    }
  }

  method MatchesAny(o: Options, terms: seq<Token>, t: Token) returns (r: bool)
    ensures r <==> exists i :: 0 <= i < |terms| && Matches(o, terms[i], t)
  {
    for i := 0 to |terms|
      invariant forall j :: 0 <= j < i ==> !Matches(o, terms[j], t)
    {
      r := FuzzyMatch(o, terms[i], t);
      if r {
        return;
      }
    }
    r := false;
  }

  /** The tokens whose postings a query reads: its own terms, or the vocabulary that matches. */
  method PostingTerms(o: Options, index: Index, terms: seq<Token>, ghost c: Corpus) returns (list: seq<Token>)
    requires IndexExact(c, index) && Findable(o, c, terms)
    ensures Distinct(list) && ListsAll(o, c, terms, list)
  {
    if o.maxDistance == 0 {
      list := UniqueTerms(terms);
      FindableIsListed(o, c, terms, list);
      return;
    }
    list := [];
    var rest := index.Keys;
    while rest != {}
      invariant rest <= index.Keys && Distinct(list) && (forall t :: t in list ==> t !in rest)
      invariant forall t :: t in index && t !in rest && (exists i :: 0 <= i < |terms| && Matches(o, terms[i], t)) ==> t in list
      decreases |rest|
    {
      var t :| t in rest;
      var hit := MatchesAny(o, terms, t);
      if hit {
        list := list + [t];
      }
      rest := rest - {t};
    }
  }

  method UniqueTerms(terms: seq<Token>) returns (list: seq<Token>)
    ensures Distinct(list) && forall t :: t in list <==> t in terms
  {
    list := [];
    for i := 0 to |terms|
      invariant Distinct(list) && forall t :: t in list <==> t in terms[..i]
    {
      assert terms[..i + 1] == terms[..i] + [terms[i]];
      if terms[i] !in list {
        list := list + [terms[i]];
      }
    }
    assert terms[..|terms|] == terms;
  }

  // Collecting frequencies from postings.

  datatype DocScore = DocScore(length: nat, frequencies: seq<nat>)

  type Docs = map<nat, DocScore>

  ghost function AccumulatedAll(o: Options, tokens: seq<Token>, terms: seq<Token>, list: seq<Token>): (f: seq<nat>)
    ensures |f| == |terms| && forall i :: 0 <= i < |terms| ==> f[i] == Accumulated(o, tokens, terms[i], list)
  {
    seq(|terms|, i requires 0 <= i < |terms| => Accumulated(o, tokens, terms[i], list))
  }

  /** The frequencies of a document, with this list of tokens read. */
  ghost predicate DocOk(o: Options, c: Corpus, terms: seq<Token>, list: seq<Token>, docs: Docs, id: nat) {
    if id in docs
    then id in c && docs[id].length == |c[id]| && docs[id].frequencies == AccumulatedAll(o, c[id], terms, list)
    else id in c ==> AllZero(AccumulatedAll(o, c[id], terms, list))
  }

  ghost predicate DocsOk(o: Options, c: Corpus, terms: seq<Token>, list: seq<Token>, docs: Docs) {
    forall id: nat :: DocOk(o, c, terms, list, docs, id)
  }

  function Raised(o: Options, f: seq<nat>, flags: seq<bool>, n: nat): (r: seq<nat>)
    requires |f| == |flags|
    ensures |r| == |f|
  {
    seq(|f|, i requires 0 <= i < |f| => if flags[i] then Combine(o, f[i], n) else f[i])
  }

  method QueryTerms(o: Options, terms: seq<Token>, t: Token) returns (flags: seq<bool>)
    ensures |flags| == |terms| && forall i :: 0 <= i < |terms| ==> flags[i] == Matches(o, terms[i], t)
  {
    flags := [];
    for i := 0 to |terms|
      invariant |flags| == i && forall j :: 0 <= j < i ==> flags[j] == Matches(o, terms[j], t)
    {
      var hit := FuzzyMatch(o, terms[i], t);
      flags := flags + [hit];
    }
  }

  function Touched(o: Options, docs: Docs, p: Posting, flags: seq<bool>): Docs
    requires p.id in docs ==> |docs[p.id].frequencies| == |flags|
  {
    var doc := if p.id in docs then docs[p.id] else DocScore(p.length, seq(|flags|, i => 0));
    docs[p.id := DocScore(doc.length, Raised(o, doc.frequencies, flags, p.frequency))]
  }

  /** With one more token read, the frequencies rise where the token matches. */
  lemma RaisedIsAccumulated(o: Options, tokens: seq<Token>, terms: seq<Token>, list: seq<Token>, t: Token, flags: seq<bool>)
    requires |flags| == |terms| && forall i :: 0 <= i < |terms| ==> flags[i] == Matches(o, terms[i], t)
    requires |tokens| <= MAX_UINT64
    ensures AccumulatedAll(o, tokens, terms, list + [t]) == Raised(o, AccumulatedAll(o, tokens, terms, list), flags, Count(tokens, t))
  {
    assert (list + [t])[..|list|] == list;
    forall i | 0 <= i < |terms| ensures Accumulated(o, tokens, terms[i], list) <= MAX_UINT64 || TakesBest(o) { AccumulatedBound(o, tokens, terms[i], list); }
  }

  lemma {:induction false} AccumulatedBound(o: Options, tokens: seq<Token>, term: Token, list: seq<Token>)
    ensures !TakesBest(o) ==> Accumulated(o, tokens, term, list) <= MAX_UINT64
  {
    if list != [] { AccumulatedBound(o, tokens, term, list[..|list| - 1]); }
  }

  lemma NotContained(o: Options, tokens: seq<Token>, terms: seq<Token>, list: seq<Token>, t: Token)
    requires Count(tokens, t) == 0 && |tokens| <= MAX_UINT64
    ensures AccumulatedAll(o, tokens, terms, list + [t]) == AccumulatedAll(o, tokens, terms, list)
  {
    assert (list + [t])[..|list|] == list;
    forall i | 0 <= i < |terms| ensures Accumulated(o, tokens, terms[i], list + [t]) == Accumulated(o, tokens, terms[i], list) {
      AccumulatedBound(o, tokens, terms[i], list);
    }
  }

  lemma NoMatch(o: Options, tokens: seq<Token>, terms: seq<Token>, list: seq<Token>, t: Token)
    requires forall i :: 0 <= i < |terms| ==> !Matches(o, terms[i], t)
    ensures AccumulatedAll(o, tokens, terms, list + [t]) == AccumulatedAll(o, tokens, terms, list)
  {
    assert (list + [t])[..|list|] == list;
    forall i | 0 <= i < |terms| ensures Accumulated(o, tokens, terms[i], list + [t]) == Accumulated(o, tokens, terms[i], list) {
      AccumulatedBound(o, tokens, terms[i], list);
    }
  }

  ghost predicate Counted(postings: seq<Posting>, k: nat, id: nat)
    requires k <= |postings|
  {
    exists i :: 0 <= i < k && postings[i].id == id
  }

  /** Half way through the postings of a token: the documents read have it, the others not yet. */
  ghost predicate Midway(o: Options, c: Corpus, terms: seq<Token>, list: seq<Token>, t: Token, docs: Docs, postings: seq<Posting>, k: nat)
    requires k <= |postings|
  {
    forall id: nat :: DocOk(o, c, terms, if Counted(postings, k, id) then list + [t] else list, docs, id)
  }

  ghost predicate SizesOk(c: Corpus) { forall id :: id in c ==> |c[id]| <= MAX_UINT64 }

  lemma ZeroFrequencies(f: seq<nat>, n: nat)
    requires |f| == n && AllZero(f)
    ensures f == seq(n, i => 0)
  {
  }

  /** Reading one posting. */
  lemma ReadOne(o: Options, c: Corpus, terms: seq<Token>, list: seq<Token>, t: Token, docs: Docs, postings: seq<Posting>, k: nat, flags: seq<bool>)
    requires SizesOk(c) && PostingsExact(c, t, postings) && k < |postings| && Midway(o, c, terms, list, t, docs, postings, k)
    requires |flags| == |terms| && forall i :: 0 <= i < |terms| ==> flags[i] == Matches(o, terms[i], t)
    ensures postings[k].id in docs ==> |docs[postings[k].id].frequencies| == |flags|
    ensures DocOk(o, c, terms, list + [t], Touched(o, docs, postings[k], flags), postings[k].id)
  {
    var p := postings[k];
    assert !Counted(postings, k, p.id);
    assert DocOk(o, c, terms, list, docs, p.id);
    RaisedIsAccumulated(o, c[p.id], terms, list, t, flags);
    if p.id !in docs { ZeroFrequencies(AccumulatedAll(o, c[p.id], terms, list), |flags|); }
  }

  lemma ReadNext(o: Options, c: Corpus, terms: seq<Token>, list: seq<Token>, t: Token, docs: Docs, after: Docs, postings: seq<Posting>, k: nat)
    requires k < |postings| && Midway(o, c, terms, list, t, docs, postings, k)
    requires DocOk(o, c, terms, list + [t], after, postings[k].id)
    requires forall id: nat :: id != postings[k].id ==> (id in after <==> id in docs) && (id in docs ==> after[id] == docs[id])
    ensures Midway(o, c, terms, list, t, after, postings, k + 1)
  {
    var n := k + 1;
    forall id: nat ensures DocOk(o, c, terms, if Counted(postings, n, id) then list + [t] else list, after, id) {
      if id != postings[k].id {
        assert Counted(postings, n, id) <==> Counted(postings, k, id);
        assert DocOk(o, c, terms, if Counted(postings, k, id) then list + [t] else list, docs, id);
      }
    }
  }

  lemma ReadAll(o: Options, c: Corpus, terms: seq<Token>, list: seq<Token>, t: Token, docs: Docs, postings: seq<Posting>)
    requires SizesOk(c) && PostingsExact(c, t, postings) && Midway(o, c, terms, list, t, docs, postings, |postings|)
    ensures DocsOk(o, c, terms, list + [t], docs)
  {
    forall id: nat ensures DocOk(o, c, terms, list + [t], docs, id) {
      assert DocOk(o, c, terms, if Counted(postings, |postings|, id) then list + [t] else list, docs, id);
      if id in c && !Counted(postings, |postings|, id) {
        assert Count(c[id], t) == 0;
        NotContained(o, c[id], terms, list, t);
      }
    }
  }

  /** Read the postings of one token. */
  method ReadPostings(o: Options, docs: Docs, postings: seq<Posting>, flags: seq<bool>, ghost c: Corpus, ghost terms: seq<Token>, ghost list: seq<Token>, ghost t: Token)
    returns (after: Docs)
    requires SizesOk(c) && PostingsExact(c, t, postings) && DocsOk(o, c, terms, list, docs)
    requires |flags| == |terms| && forall i :: 0 <= i < |terms| ==> flags[i] == Matches(o, terms[i], t)
    ensures DocsOk(o, c, terms, list + [t], after)
  {
    after := docs;
    for k := 0 to |postings|
      invariant Midway(o, c, terms, list, t, after, postings, k)
    {
      ghost var before := after;
      ReadOne(o, c, terms, list, t, after, postings, k, flags);
      after := Touched(o, after, postings[k], flags);
      ReadNext(o, c, terms, list, t, before, after, postings, k);
    }
    ReadAll(o, c, terms, list, t, after, postings);
  }

  lemma SkipToken(o: Options, c: Corpus, terms: seq<Token>, list: seq<Token>, t: Token, docs: Docs)
    requires DocsOk(o, c, terms, list, docs) && forall i :: 0 <= i < |terms| ==> !Matches(o, terms[i], t)
    ensures DocsOk(o, c, terms, list + [t], docs)
  {
    forall id: nat ensures DocOk(o, c, terms, list + [t], docs, id) {
      assert DocOk(o, c, terms, list, docs, id);
      if id in c { NoMatch(o, c[id], terms, list, t); }
    }
  }

  /** The frequencies of every document that some posting names. */
  method CollectDocuments(o: Options, index: Index, terms: seq<Token>, list: seq<Token>, ghost c: Corpus) returns (docs: Docs)
    requires IndexExact(c, index) && SizesOk(c)
    ensures DocsOk(o, c, terms, list, docs)
  {
    docs := map[];
    ghost var done: seq<Token> := [];
    for k := 0 to |list|
      invariant done == list[..k] && DocsOk(o, c, terms, done, docs)
    {
      var t := list[k];
      assert list[..k + 1] == done + [t];
      var flags := QueryTerms(o, terms, t);
      if forall i :: 0 <= i < |flags| ==> !flags[i] {
        SkipToken(o, c, terms, done, t, docs);
      } else {
        docs := ReadPostings(o, docs, PostingsOf(index, t), flags, c, terms, done, t);
      }
      done := done + [t];
    }
    assert list[..|list|] == list;
  }

  /** Every document read has the frequencies of its text, and no other document has any. */
  ghost predicate Exact(o: Options, c: Corpus, terms: seq<Token>, docs: Docs) {
    && (forall id :: id in docs ==> id in c && docs[id].length == |c[id]| && docs[id].frequencies == Frequencies(o, c[id], terms))
    && (forall id :: id in c && id !in docs ==> AllZero(Frequencies(o, c[id], terms)))
  }

  lemma DocsAreExact(o: Options, c: Corpus, terms: seq<Token>, list: seq<Token>, docs: Docs)
    requires DocsOk(o, c, terms, list, docs) && ListsAll(o, c, terms, list) && SizesOk(c)
    ensures Exact(o, c, terms, docs)
  {
    forall id | id in docs ensures id in c && docs[id].length == |c[id]| && docs[id].frequencies == Frequencies(o, c[id], terms) {
      assert DocOk(o, c, terms, list, docs, id);
      AllFrequencies(o, c[id], terms, list);
    }
    forall id | id in c && id !in docs ensures AllZero(Frequencies(o, c[id], terms)) {
      assert DocOk(o, c, terms, list, docs, id);
      AllFrequencies(o, c[id], terms, list);
    }
  }

  lemma AllFrequencies(o: Options, tokens: seq<Token>, terms: seq<Token>, list: seq<Token>)
    requires |tokens| <= MAX_UINT64 && forall i :: 0 <= i < |terms| ==> FullText.Lists(o, tokens, terms[i], list)
    ensures AccumulatedAll(o, tokens, terms, list) == Frequencies(o, tokens, terms)
  {
    forall i | 0 <= i < |terms| ensures Accumulated(o, tokens, terms[i], list) == Frequency(o, tokens, terms[i]) {
      PostingsGiveFrequency(o, tokens, terms[i], list);
    }
  }

  lemma {:induction false} UnlistedWeighsNothing(o: Options, tokens: seq<Token>, term: Token, list: seq<Token>)
    requires o.maxDistance == 0 && o.lower(term) !in list
    ensures Accumulated(o, tokens, term, list) == 0
  {
    if list != [] {
      UnlistedWeighsNothing(o, tokens, term, list[..|list| - 1]);
    }
  }

  lemma {:induction false} PresentOccurs(o: Options, tokens: seq<Token>, term: Token)
    requires o.lower(term) in tokens
    ensures Occurrences(o, tokens, term) > 0
  {
    var n := |tokens| - 1;
    if tokens[n] != o.lower(term) {
      assert tokens == tokens[..n] + [tokens[n]];
      PresentOccurs(o, tokens[..n], term);
    }
  }

  /** A document in which a term is overlooked. */
  lemma Overlooked(o: Options, tokens: seq<Token>, terms: seq<Token>, list: seq<Token>, i: nat)
    requires o.maxDistance == 0 && i < |terms| && o.lower(terms[i]) in tokens && o.lower(terms[i]) !in list
    ensures AccumulatedAll(o, tokens, terms, list)[i] == 0 < Frequencies(o, tokens, terms)[i]
  {
    UnlistedWeighsNothing(o, tokens, terms[i], list);
    PresentOccurs(o, tokens, terms[i]);
  }

  /** Exact search reads the right frequencies of all documents exactly when its terms can be found. */
  lemma PostingsSuffice(o: Options, c: Corpus, terms: seq<Token>, list: seq<Token>)
    requires o.maxDistance == 0 && SizesOk(c) && Distinct(list) && forall t :: t in list <==> t in terms
    ensures Findable(o, c, terms) <==> forall id :: id in c ==> AccumulatedAll(o, c[id], terms, list) == Frequencies(o, c[id], terms)
  {
    if Findable(o, c, terms) {
      FindableIsListed(o, c, terms, list);
      forall id | id in c ensures AccumulatedAll(o, c[id], terms, list) == Frequencies(o, c[id], terms) {
        AllFrequencies(o, c[id], terms, list);
      }
    } else {
      var id, i :| id in c && 0 <= i < |terms| && o.lower(terms[i]) in c[id] && o.lower(terms[i]) !in terms;
      Overlooked(o, c[id], terms, list, i);
    }
  }

  /** A capital letter is overlooked: the scan ranks a document for it that no posting names. */
  lemma CapitalIsOverlooked(o: Options)
    requires o.maxDistance == 0 && o.byFrequency && o.lower("A") == "a"
    ensures var c: Corpus := map[1 := ["a"]];
            !Findable(o, c, ["A"]) && Ranked(o, c, ["A"]) != [] && AllZero(AccumulatedAll(o, c[1], ["A"], ["A"]))
  {
    var c: Corpus, terms := map[1 := ["a"]], ["A"];
    assert o.lower(terms[0]) in c[1] && o.lower(terms[0]) !in terms;
    Overlooked(o, c[1], terms, ["A"], 0);
    OccurringScores(o, c, terms, 1, 0);
    OneResult(o, c, terms, 1);
  }

  lemma OccurringScores(o: Options, c: Corpus, terms: seq<Token>, id: nat, i: nat)
    requires o.byFrequency && id in c && i < |terms| && Frequencies(o, c[id], terms)[i] > 0
    ensures ScoreOf(o, c, terms, id) > 0.0
  {
    SumIsPositive(Frequencies(o, c[id], terms));
  }

  /** A document that scores is ranked when there is room for all. */
  lemma OneResult(o: Options, c: Corpus, terms: seq<Token>, id: nat)
    requires c.Keys == {id} && ScoreOf(o, c, terms, id) > 0.0
    ensures Ranked(o, c, terms) != []
  {
    var results, all := ResultsOf(o, c, terms), SeqOf(multiset(c.Keys));
    SeqOfListing(c.Keys);
    assert multiset(all) == multiset{id};
    assert multiset([id]) == multiset{id};
    SumPermutes(results, all, [id]);
    SumCons(results, id, []);
    assert [id] + [] == [id];
    assert Scored(o, c, terms) == ResultOf(o, c, terms, id);
  }

  method ListDocuments(docs: Docs) returns (ids: seq<nat>)
    ensures Listing(ids, docs.Keys)
  {
    ids := Enumerate(docs.Keys);
    ListingOf(ids, docs.Keys);
  }

  method CountDocuments(o: Options, docs: Docs, ids: seq<nat>, ghost c: Corpus, terms: seq<Token>) returns (df: seq<nat>)
    requires Exact(o, c, terms, docs) && Listing(ids, docs.Keys)
    ensures df == DocumentFrequencies(o, c, terms)
  {
    df := seq(|terms|, i => 0);
    NoneCounted(o, c, terms);
    assert IDs(ids, 0) == {};
    for i := 0 to |ids|
      invariant CountsContaining(o, c, terms, IDs(ids, i), df)
    {
      assert ids[i] in docs;
      OneMoreID(ids, i);
      CountOne(o, c, terms, IDs(ids, i), df, ids[i]);
      df := CountDocument(df, docs[ids[i]].frequencies);
    }
    assert IDs(ids, |ids|) == docs.Keys;
    AllCounted(o, c, terms, docs.Keys, df);
  }

  method RankDocuments(o: Options, docs: Docs, ids: seq<nat>, df: seq<nat>, documents: nat, total: nat, ghost c: Corpus, ghost terms: seq<Token>) returns (r: seq<Result>)
    requires Exact(o, c, terms, docs) && Listing(ids, docs.Keys) && RightStats(o, c, terms, df, documents, total)
    ensures r == Ranked(o, c, terms)
  {
    var heap: seq<Result> := [];
    ghost var results, seen := ResultsOf(o, c, terms), multiset{};
    NothingKept(Limit(o));
    for i := 0 to |ids|
      invariant seen == Sum(results, ids[..i]) && Kept(heap, seen, Limit(o))
    {
      var id := ids[i];
      assert id in docs;
      heap := OfferDocument(o, heap, id, docs[id].frequencies, docs[id].length, df, documents, total, c, terms, seen);
      SumSnoc(results, ids, i);
      seen := seen + ResultOf(o, c, terms, id);
    }
    r := SortResults(heap, seen, Limit(o));
    assert ids[..|ids|] == ids;
    SameResults(o, c, terms, docs, ids);
  }

  /** Documents without a posting add no result. */
  lemma SameResults(o: Options, c: Corpus, terms: seq<Token>, docs: Docs, ids: seq<nat>)
    requires Exact(o, c, terms, docs) && Listing(ids, docs.Keys)
    ensures Sum(ResultsOf(o, c, terms), ids) == Scored(o, c, terms)
  {
    var all := SeqOf(multiset(c.Keys));
    SeqOfListing(c.Keys);
    forall id: nat | ResultsOf(o, c, terms)(id) != multiset{} ensures id in ids <==> id in all {
      if id in c && id !in docs { DocumentScoresZero(o, c, terms, id); }
    }
    SumSupport(ResultsOf(o, c, terms), ids, all);
  }

  /** The indexed search: postings instead of documents, the same ranked list. */
  method IndexSearch(o: Options, index: Index, terms: seq<Token>, documents: nat, total: nat, ghost c: Corpus) returns (r: seq<Result>)
    requires IndexExact(c, index) && SizesOk(c) && documents == |c| && total == TotalLength(c)
    requires Findable(o, c, terms)
    ensures r == Ranked(o, c, terms)
  {
    if terms == [] || documents == 0 {
      forall id | id in c ensures ResultOf(o, c, terms, id) == multiset{} { DocumentScoresZero(o, c, terms, id); }
      NoResults(o, c, terms);
      return [];
    }
    var list := PostingTerms(o, index, terms, c);
    var docs := CollectDocuments(o, index, terms, list, c);
    DocsAreExact(o, c, terms, list, docs);
    var ids := ListDocuments(docs);
    var df := CountDocuments(o, docs, ids, c, terms);
    r := RankDocuments(o, docs, ids, df, documents, total, c, terms);
  }
}
