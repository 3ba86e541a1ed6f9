/** Full-text search: what a query returns, term frequencies by scanning and by postings. */
module FullText {

  import opened Orders
  import opened Sums
  import opened EditDistance

  type Token = seq<char>

  /** A corpus: the tokens of every indexed node. */
  type Corpus = map<nat, seq<Token>>

  const MAX_UINT64: nat := 0xffff_ffff_ffff_ffff

  function Least(x: nat, y: nat): nat { if x <= y then x else y }

  function Greatest(x: nat, y: nat): nat { if x >= y then x else y }

  function SaturatingAdd(x: nat, y: nat): nat { Least(x + y, MAX_UINT64) }

  /** Fuzzy matching is on when the distance is not zero. Lower-casing, the logarithm and the rounding
      of scores are parameters. */
  datatype Options = Options(maxDistance: nat, minLength: nat, byFrequency: bool, limit: nat, lower: Token -> Token,
                             log: real -> real, rounded: real -> real)

  ghost predicate Matches(o: Options, term: Token, token: Token) {
    var low := o.lower(term);
    token == low || (o.maxDistance != 0 && |low| >= o.minLength && Distance(low, token) <= o.maxDistance)
  }

  method FuzzyMatch(o: Options, term: Token, token: Token) returns (r: bool)
    ensures r == Matches(o, term, token)
  {
    var low := o.lower(term);
    if token == low {
      return true;
    }
    if o.maxDistance == 0 || |low| < o.minLength {
      return false;
    }
    var d := BoundedDistance(low, token, o.maxDistance);
    return d <= o.maxDistance;
  }

  // Frequencies.

  function Count(tokens: seq<Token>, t: Token): nat {
    if tokens == [] then 0 else Count(tokens[..|tokens| - 1], t) + if tokens[|tokens| - 1] == t then 1 else 0
  }

  /** How many tokens match the term. */
  ghost function Occurrences(o: Options, tokens: seq<Token>, term: Token): (n: nat)
    ensures n <= |tokens|
  {
    if tokens == [] then 0 else Occurrences(o, tokens[..|tokens| - 1], term) + if Matches(o, term, tokens[|tokens| - 1]) then 1 else 0
  }

  ghost function Weight(o: Options, tokens: seq<Token>, term: Token, t: Token): nat {
    if Matches(o, term, t) then Count(tokens, t) else 0
  }

  /** The count of the most frequent matching token, over the first n tokens. */
  ghost function Peak(o: Options, tokens: seq<Token>, term: Token, n: nat): nat
    requires n <= |tokens|
  {
    if n == 0 then 0 else Greatest(Peak(o, tokens, term, n - 1), Weight(o, tokens, term, tokens[n - 1]))
  }

  /** Fuzzy matching scored by frequency takes the best token, everything else adds tokens up. */
  predicate TakesBest(o: Options) { o.byFrequency && o.maxDistance != 0 }

  ghost function Frequency(o: Options, tokens: seq<Token>, term: Token): nat {
    if TakesBest(o) then Peak(o, tokens, term, |tokens|) else Occurrences(o, tokens, term)
  }

  function Combine(o: Options, x: nat, y: nat): nat {
    if TakesBest(o) then Greatest(x, y) else SaturatingAdd(x, y)
  }

  /** What posting lists add up to, for the tokens of a list. */
  ghost function Accumulated(o: Options, tokens: seq<Token>, term: Token, list: seq<Token>): nat {
    if list == [] then 0
    else Combine(o, Accumulated(o, tokens, term, list[..|list| - 1]), Weight(o, tokens, term, list[|list| - 1]))
  }

  ghost function Total(o: Options, tokens: seq<Token>, term: Token, list: seq<Token>): nat {
    if list == [] then 0 else Total(o, tokens, term, list[..|list| - 1]) + Weight(o, tokens, term, list[|list| - 1])
  }

  lemma {:induction false} AccumulatedIsTotal(o: Options, tokens: seq<Token>, term: Token, list: seq<Token>)
    requires !TakesBest(o)
    ensures Accumulated(o, tokens, term, list) == Least(Total(o, tokens, term, list), MAX_UINT64)
  {
    if list != [] { AccumulatedIsTotal(o, tokens, term, list[..|list| - 1]); }
  }

  /** One more token raises the total by one exactly when it matches and is listed. */
  lemma {:induction false} TotalGrows(o: Options, tokens: seq<Token>, x: Token, term: Token, list: seq<Token>)
    requires Distinct(list)
    ensures Total(o, tokens + [x], term, list) == Total(o, tokens, term, list) + if x in list && Matches(o, term, x) then 1 else 0
  {
    assert (tokens + [x])[..|tokens|] == tokens;
    if list != [] {
      var n := |list| - 1;
      TotalGrows(o, tokens, x, term, list[..n]);
      assert x in list <==> x in list[..n] || x == list[n];
      assert list[n] !in list[..n];
    }
  }

  /** The list holds every token of the document that matches the term. */
  ghost predicate Lists(o: Options, tokens: seq<Token>, term: Token, list: seq<Token>) {
    Distinct(list) && forall i :: 0 <= i < |tokens| && Matches(o, term, tokens[i]) ==> tokens[i] in list
  }

  lemma {:induction false} NoTokens(o: Options, term: Token, list: seq<Token>)
    ensures Total(o, [], term, list) == 0
  {
    if list != [] { NoTokens(o, term, list[..|list| - 1]); }
  }

  lemma {:induction false} TotalIsOccurrences(o: Options, tokens: seq<Token>, term: Token, list: seq<Token>)
    requires Lists(o, tokens, term, list)
    ensures Total(o, tokens, term, list) == Occurrences(o, tokens, term)
    decreases |tokens|
  {
    if tokens == [] {
      NoTokens(o, term, list);
    } else {
      var n := |tokens| - 1;
      assert tokens == tokens[..n] + [tokens[n]];
      TotalIsOccurrences(o, tokens[..n], term, list);
      TotalGrows(o, tokens[..n], tokens[n], term, list);
    }
  }

  /** v is the largest weight of a listed token. */
  ghost predicate IsLargest(o: Options, tokens: seq<Token>, term: Token, list: seq<Token>, v: nat) {
    && (forall i :: 0 <= i < |list| ==> Weight(o, tokens, term, list[i]) <= v)
    && (v == 0 || exists i :: 0 <= i < |list| && Weight(o, tokens, term, list[i]) == v)
  }

  lemma {:induction false} AccumulatedIsLargest(o: Options, tokens: seq<Token>, term: Token, list: seq<Token>)
    requires TakesBest(o)
    ensures IsLargest(o, tokens, term, list, Accumulated(o, tokens, term, list))
  {
    if list != [] {
      var n := |list| - 1;
      AccumulatedIsLargest(o, tokens, term, list[..n]);
      assert forall i :: 0 <= i < n ==> list[..n][i] == list[i];
    }
  }

  lemma {:induction false} PeakIsLargest(o: Options, tokens: seq<Token>, term: Token, n: nat)
    requires n <= |tokens|
    ensures IsLargest(o, tokens, term, tokens[..n], Peak(o, tokens, term, n))
  {
    if n > 0 {
      PeakIsLargest(o, tokens, term, n - 1);
      assert tokens[..n] == tokens[..n - 1] + [tokens[n - 1]];
      assert tokens[..n][n - 1] == tokens[n - 1];
      assert forall i :: 0 <= i < n - 1 ==> tokens[..n - 1][i] == tokens[..n][i];
    }
  }

  lemma {:induction false} CountedIsPresent(tokens: seq<Token>, t: Token)
    requires Count(tokens, t) > 0
    ensures t in tokens
  {
    if tokens[|tokens| - 1] != t { CountedIsPresent(tokens[..|tokens| - 1], t); }
  }

  lemma SameLargest(o: Options, tokens: seq<Token>, term: Token, list: seq<Token>, u: nat, v: nat)
    requires Lists(o, tokens, term, list) && IsLargest(o, tokens, term, list, u) && IsLargest(o, tokens, term, tokens, v)
    ensures u == v
  {
    if u > 0 {
      var i :| 0 <= i < |list| && Weight(o, tokens, term, list[i]) == u;
      CountedIsPresent(tokens, list[i]);
      var j :| 0 <= j < |tokens| && tokens[j] == list[i];
      assert Weight(o, tokens, term, tokens[j]) <= v;
    }
    if v > 0 {
      var i :| 0 <= i < |tokens| && Weight(o, tokens, term, tokens[i]) == v;
      var j :| 0 <= j < |list| && list[j] == tokens[i];
      assert Weight(o, tokens, term, list[j]) <= u;
    }
  }

  /** Postings of every matching token give the frequency that reading the document gives. */
  lemma PostingsGiveFrequency(o: Options, tokens: seq<Token>, term: Token, list: seq<Token>)
    requires Lists(o, tokens, term, list) && |tokens| <= MAX_UINT64
    ensures Accumulated(o, tokens, term, list) == Frequency(o, tokens, term)
  {
    if TakesBest(o) {
      AccumulatedIsLargest(o, tokens, term, list);
      PeakIsLargest(o, tokens, term, |tokens|);
      assert tokens[..|tokens|] == tokens;
      SameLargest(o, tokens, term, list, Accumulated(o, tokens, term, list), Peak(o, tokens, term, |tokens|));
    } else {
      AccumulatedIsTotal(o, tokens, term, list);
      TotalIsOccurrences(o, tokens, term, list);
    }
  }

  ghost function Frequencies(o: Options, tokens: seq<Token>, terms: seq<Token>): (f: seq<nat>)
    ensures |f| == |terms| && forall i :: 0 <= i < |terms| ==> f[i] == Frequency(o, tokens, terms[i])
  {
    seq(|terms|, i requires 0 <= i < |terms| => Frequency(o, tokens, terms[i]))
  }

  // Scores and the ranked list.

  function SumUp(f: seq<nat>): nat {
    if f == [] then 0 else SaturatingAdd(SumUp(f[..|f| - 1]), f[|f| - 1])
  }

  predicate AllZero(f: seq<nat>) { forall i :: 0 <= i < |f| ==> f[i] == 0 }

  const K1: real := 1.2
  const B: real := 0.75

  /** How rare a term is. */
  function Rarity(log: real -> real, df: nat, documents: nat): real {
    log(1.0 + ((documents as real - df as real) + 0.5) / (df as real + 0.5))
  }

  /** How much a frequency counts in a document of this length. */
  function Saturation(f: nat, length: nat, average: real): real
    requires f > 0 && average > 0.0
  {
    LengthPart(length, average);
    f as real * (K1 + 1.0) / (f as real + K1 * (1.0 - B + B * (length as real) / average))
  }

  lemma LengthPart(length: nat, average: real)
    requires average > 0.0
    ensures K1 * (1.0 - B + B * (length as real) / average) > 0.0
  {
    NotNegative(B * (length as real), average);
  }

  lemma NotNegative(a: real, b: real)
    requires a >= 0.0 && b > 0.0
    ensures a / b >= 0.0
  {
  }

  /** A term that does not occur in the document, or in none, adds nothing. */
  function TermScore(log: real -> real, f: nat, df: nat, length: nat, documents: nat, average: real): real
    requires average > 0.0
  {
    if f == 0 || df == 0 then 0.0 else Rarity(log, df, documents) * Saturation(f, length, average)
  }

  function Bm25(log: real -> real, f: seq<nat>, df: seq<nat>, length: nat, documents: nat, average: real): real
    requires |df| == |f| && average > 0.0
    decreases |f|
  {
    if f == [] then 0.0
    else
      var n := |f| - 1;
      Bm25(log, f[..n], df[..n], length, documents, average) + TermScore(log, f[n], df[n], length, documents, average)
  }

  function Average(total: nat, documents: nat): (a: real)
    requires total > 0 && documents > 0
    ensures a > 0.0
  {
    Quotient(total as real, documents as real);
    total as real / documents as real
  }

  lemma Quotient(a: real, b: real)
    requires a > 0.0 && b > 0.0
    ensures a / b > 0.0
  {
  }

  function Score(o: Options, f: seq<nat>, df: seq<nat>, length: nat, documents: nat, total: nat): real
    requires o.byFrequency || |df| == |f|
  {
    if o.byFrequency then SumUp(f) as real
    else if length == 0 || documents == 0 || total == 0 then 0.0
    else Bm25(o.log, f, df, length, documents, Average(total, documents))
  }

  /** The sum of the frequencies, saturating. */
  method FrequencyScore(f: seq<nat>) returns (score: real)
    ensures score == SumUp(f) as real
  {
    var sum: nat := 0;
    for i := 0 to |f|
      invariant sum == SumUp(f[..i])
    {
      assert f[..i + 1][..i] == f[..i];
      sum := SaturatingAdd(sum, f[i]);
    }
    assert f[..|f|] == f;
    score := sum as real;
  }

  lemma Bm25Snoc(log: real -> real, f: seq<nat>, df: seq<nat>, length: nat, documents: nat, average: real, i: nat)
    requires |df| == |f| && average > 0.0 && i < |f|
    ensures Bm25(log, f[..i + 1], df[..i + 1], length, documents, average)
         == Bm25(log, f[..i], df[..i], length, documents, average) + TermScore(log, f[i], df[i], length, documents, average)
  {
    assert f[..i + 1][..i] == f[..i] && df[..i + 1][..i] == df[..i];
  }

  method Bm25Score(log: real -> real, f: seq<nat>, df: seq<nat>, length: nat, documents: nat, average: real) returns (score: real)
    requires |df| == |f| && average > 0.0
    ensures score == Bm25(log, f, df, length, documents, average)
  {
    score := 0.0;
    for i := 0 to |f|
      invariant score == Bm25(log, f[..i], df[..i], length, documents, average)
    {
      Bm25Snoc(log, f, df, length, documents, average, i);
      if f[i] == 0 || df[i] == 0 {
        continue;
      }
      LengthPart(length, average);
      var rarity := log(1.0 + ((documents as real - df[i] as real) + 0.5) / (df[i] as real + 0.5));
      score := score + rarity * (f[i] as real * (K1 + 1.0) / (f[i] as real + K1 * (1.0 - B + B * (length as real) / average)));
    }
    assert f[..|f|] == f && df[..|f|] == df;
  }

  method ScoreDocument(o: Options, f: seq<nat>, df: seq<nat>, length: nat, documents: nat, total: nat) returns (score: real)
    requires o.byFrequency || |df| == |f|
    ensures score == Score(o, f, df, length, documents, total)
  {
    if o.byFrequency {
      score := FrequencyScore(f);
    } else if length == 0 || documents == 0 || total == 0 {
      score := 0.0;
    } else {
      score := Bm25Score(o.log, f, df, length, documents, Average(total, documents));
    }
  }

  lemma NothingScoresZero(o: Options, f: seq<nat>, df: seq<nat>, length: nat, documents: nat, total: nat)
    requires AllZero(f) && (o.byFrequency || |df| == |f|)
    ensures Score(o, f, df, length, documents, total) == 0.0
  {
    SumOfZeros(f);
    if !o.byFrequency && length != 0 && documents != 0 && total != 0 { Bm25OfZeros(o.log, f, df, length, documents, Average(total, documents)); }
  }

  lemma {:induction false} SumOfZeros(f: seq<nat>)
    requires AllZero(f)
    ensures SumUp(f) == 0
  {
    if f != [] { SumOfZeros(f[..|f| - 1]); }
  }

  lemma {:induction false} Bm25OfZeros(log: real -> real, f: seq<nat>, df: seq<nat>, length: nat, documents: nat, average: real)
    requires AllZero(f) && |df| == |f| && average > 0.0
    ensures Bm25(log, f, df, length, documents, average) == 0.0
    decreases |f|
  {
    if f != [] { Bm25OfZeros(log, f[..|f| - 1], df[..|f| - 1], length, documents, average); }
  }

  function Plain(f: seq<nat>): nat { if f == [] then 0 else f[0] + Plain(f[1..]) }

  lemma {:induction false} PlainSnoc(f: seq<nat>, n: nat)
    ensures Plain(f + [n]) == Plain(f) + n
  {
    if f == [] {
      assert [] + [n] == [n] && Plain([n]) == n + Plain([]);
    } else {
      assert (f + [n])[1..] == f[1..] + [n];
      PlainSnoc(f[1..], n);
    }
  }

  lemma {:induction false} SumIsPlain(f: seq<nat>)
    ensures SumUp(f) == Least(Plain(f), MAX_UINT64)
  {
    if f != [] {
      var n := |f| - 1;
      assert f == f[..n] + [f[n]];
      SumIsPlain(f[..n]);
      PlainSnoc(f[..n], f[n]);
    }
  }

  /** Scored by frequency, a document gets the sum of the frequencies of the terms, up to 64 bits;
      scored by BM25, one term gives its rarity times its saturation at the document's length. */
  lemma ScoreIs(o: Options, f: seq<nat>, df: seq<nat>, length: nat, documents: nat, total: nat)
    requires o.byFrequency || |df| == |f|
    ensures o.byFrequency ==> Score(o, f, df, length, documents, total) == Least(Plain(f), MAX_UINT64) as real
    ensures !o.byFrequency && |f| == 1 && f[0] > 0 && df[0] > 0 && length > 0 && documents > 0 && total > 0 ==>
              var a := total as real / documents as real;
              && a > 0.0 && f[0] as real + 1.2 * (0.25 + 0.75 * (length as real) / a) > 0.0
              && Score(o, f, df, length, documents, total) == o.log(1.0 + ((documents as real - df[0] as real) + 0.5) / (df[0] as real + 0.5))
                                                              * (f[0] as real * 2.2 / (f[0] as real + 1.2 * (0.25 + 0.75 * (length as real) / a)))
  {
    SumIsPlain(f);
    if !o.byFrequency && |f| == 1 && f[0] > 0 && df[0] > 0 && length > 0 && documents > 0 && total > 0 {
      var a := Average(total, documents);
      LengthPart(length, a);
      assert f[..0] == [] && df[..0] == [];
      assert Bm25(o.log, f[..0], df[..0], length, documents, a) == 0.0;
    }
  }

  // Which documents score.

  /** The logarithm is positive beyond one. */
  ghost predicate Logarithmic(log: real -> real) { forall x: real :: x > 1.0 ==> log(x) > 0.0 }

  lemma Product(a: real, b: real)
    requires a > 0.0 && b > 0.0
    ensures a * b > 0.0
  {
  }

  lemma RarityIsPositive(log: real -> real, df: nat, documents: nat)
    requires Logarithmic(log) && df <= documents
    ensures Rarity(log, df, documents) > 0.0
  {
    var a, b := (documents as real - df as real) + 0.5, df as real + 0.5;
    Quotient(a, b);
  }

  lemma TermScoreIsPositive(log: real -> real, f: nat, df: nat, length: nat, documents: nat, average: real)
    requires Logarithmic(log) && f > 0 && 0 < df <= documents && average > 0.0
    ensures TermScore(log, f, df, length, documents, average) > 0.0
  {
    RarityIsPositive(log, df, documents);
    LengthPart(length, average);
    var a, b := f as real * (K1 + 1.0), f as real + K1 * (1.0 - B + B * (length as real) / average);
    Product(f as real, K1 + 1.0);
    Quotient(a, b);
    Product(Rarity(log, df, documents), Saturation(f, length, average));
  }

  lemma {:induction false} Bm25IsPositive(log: real -> real, f: seq<nat>, df: seq<nat>, length: nat, documents: nat, average: real)
    requires Logarithmic(log) && |df| == |f| && average > 0.0 && forall i :: 0 <= i < |f| && f[i] > 0 ==> 0 < df[i] <= documents
    ensures Bm25(log, f, df, length, documents, average) >= 0.0
    ensures !AllZero(f) ==> Bm25(log, f, df, length, documents, average) > 0.0
    decreases |f|
  {
    if f != [] {
      var n := |f| - 1;
      Bm25IsPositive(log, f[..n], df[..n], length, documents, average);
      if f[n] > 0 { TermScoreIsPositive(log, f[n], df[n], length, documents, average); }
    }
  }

  lemma {:induction false} SumIsPositive(f: seq<nat>)
    ensures SumUp(f) == 0 <==> AllZero(f)
  {
    if f != [] { SumIsPositive(f[..|f| - 1]); }
  }

  /** A document scores exactly when some term occurs in it. */
  lemma ScoresIffOccurs(o: Options, f: seq<nat>, df: seq<nat>, length: nat, documents: nat, total: nat)
    requires Logarithmic(o.log) && (o.byFrequency || |df| == |f|)
    requires !o.byFrequency ==> forall i :: 0 <= i < |f| && f[i] > 0 ==> 0 < df[i] <= documents
    requires !AllZero(f) ==> length > 0 && documents > 0 && total > 0
    ensures Score(o, f, df, length, documents, total) > 0.0 <==> !AllZero(f)
  {
    SumIsPositive(f);
    if AllZero(f) {
      NothingScoresZero(o, f, df, length, documents, total);
    } else if !o.byFrequency {
      Bm25IsPositive(o.log, f, df, length, documents, Average(total, documents));
    }
  }

  datatype Result = Result(id: nat, score: real)

  /** Higher scores first, then lower ids. */
  predicate ResultLe(x: Result, y: Result) {
    x.score > y.score || (x.score == y.score && x.id <= y.id)
  }

  lemma ResultsAreOrdered()
    ensures TotalOrder(ResultLe)
  {
    forall x, y, z ensures (ResultLe(x, y) || ResultLe(y, x)) && (ResultLe(x, y) && ResultLe(y, z) ==> ResultLe(x, z)) { }
    forall x, y | ResultLe(x, y) && ResultLe(y, x) ensures x == y { }
  }

  /** The statistics of a corpus: how many documents contain each term, and how long they all are. */
  ghost function DocumentFrequency(o: Options, c: Corpus, term: Token): nat {
    |DocumentsWith(o, c, term)|
  }

  ghost function DocumentsWith(o: Options, c: Corpus, term: Token): set<nat> {
    set id | id in c && Frequency(o, c[id], term) != 0
  }

  ghost function DocumentFrequencies(o: Options, c: Corpus, terms: seq<Token>): (df: seq<nat>)
    ensures |df| == |terms| && forall i :: 0 <= i < |terms| ==> df[i] == DocumentFrequency(o, c, terms[i])
  {
    seq(|terms|, i requires 0 <= i < |terms| => DocumentFrequency(o, c, terms[i]))
  }

  function TokensOf(c: Corpus): nat -> multiset<Token> { (id: nat) => if id in c then multiset(c[id]) else multiset{} }

  ghost function TotalLength(c: Corpus): nat { Least(|Sum(TokensOf(c), SeqOf(multiset(c.Keys)))|, MAX_UINT64) }

  ghost function ScoreOf(o: Options, c: Corpus, terms: seq<Token>, id: nat): real
    requires id in c
  {
    Score(o, Frequencies(o, c[id], terms), DocumentFrequencies(o, c, terms), |c[id]|, |c|, TotalLength(c))
  }

  /** The result of a document, if its score is positive. */
  ghost function ResultOf(o: Options, c: Corpus, terms: seq<Token>, id: nat): multiset<Result> {
    if id in c && ScoreOf(o, c, terms, id) > 0.0 then multiset{Result(id, o.rounded(ScoreOf(o, c, terms, id)))} else multiset{}
  }

  ghost function ResultsOf(o: Options, c: Corpus, terms: seq<Token>): nat -> multiset<Result> {
    (id: nat) => ResultOf(o, c, terms, id)
  }

  ghost function Scored(o: Options, c: Corpus, terms: seq<Token>): multiset<Result> {
    Sum(ResultsOf(o, c, terms), SeqOf(multiset(c.Keys)))
  }

  function Limit(o: Options): nat { if o.limit == 0 then 10 else o.limit }

  /** What a search returns: the best results of the whole corpus, in order. */
  ghost function Ranked(o: Options, c: Corpus, terms: seq<Token>): seq<Result> {
    var all := SeqOf(Scored(o, c, terms));
    SortBy(ResultLe, all)[..Least(Limit(o), |all|)]
  }

  lemma DocumentScoresZero(o: Options, c: Corpus, terms: seq<Token>, id: nat)
    requires id in c && AllZero(Frequencies(o, c[id], terms))
    ensures ResultOf(o, c, terms, id) == multiset{}
  {
    NothingScoresZero(o, Frequencies(o, c[id], terms), DocumentFrequencies(o, c, terms), |c[id]|, |c|, TotalLength(c));
  }

  // What the ranked list is.

  /** The result of a document that scores. */
  ghost predicate Scores(o: Options, c: Corpus, terms: seq<Token>, x: Result) {
    x.id in c && ScoreOf(o, c, terms, x.id) > 0.0 && x.score == o.rounded(ScoreOf(o, c, terms, x.id))
  }

  lemma ResultCounts(o: Options, c: Corpus, terms: seq<Token>, id: nat, x: Result)
    requires id in c
    ensures ResultOf(o, c, terms, id)[x] == if id == x.id && Scores(o, c, terms, x) then 1 else 0
  {
  }

  lemma ScoredOnce(o: Options, c: Corpus, terms: seq<Token>, x: Result)
    ensures Scored(o, c, terms)[x] == if Scores(o, c, terms, x) then 1 else 0
  {
    var f, ids, givers := ResultsOf(o, c, terms), SeqOf(multiset(c.Keys)), if Scores(o, c, terms, x) then {x.id} else {};
    SeqOfListing(c.Keys);
    forall id | id in ids ensures f(id)[x] == if id in givers then 1 else 0 { ResultCounts(o, c, terms, id, x); }
    SumCounts(f, ids, x, givers);
  }

  lemma EachOnce(s: seq<Result>)
    requires forall x :: multiset(s)[x] <= 1
    ensures Distinct(s)
  {
    forall i, j | 0 <= i < j < |s| ensures s[i] != s[j] {
      if s[i] == s[j] { Twice(s, i, j); }
    }
  }

  /** Before in the ranking: the higher score, then the lower id. */
  predicate Before(x: Result, y: Result) { x.score > y.score || (x.score == y.score && x.id < y.id) }

  lemma SortedStrictly(all: seq<Result>, sorted: seq<Result>)
    requires sorted == SortBy(ResultLe, all) && forall x :: multiset(all)[x] <= 1
    ensures multiset(sorted) == multiset(all) && forall i, j :: 0 <= i < j < |sorted| ==> Before(sorted[i], sorted[j])
  {
    ResultsAreOrdered();
    SortBySorts(ResultLe, all);
    SortByElements(ResultLe, all);
    EachOnce(sorted);
    forall i, j | 0 <= i < j < |sorted| ensures Before(sorted[i], sorted[j]) { assert ResultLe(sorted[i], sorted[j]); }
  }

  ghost function AllRanked(o: Options, c: Corpus, terms: seq<Token>): seq<Result> {
    SortBy(ResultLe, SeqOf(Scored(o, c, terms)))
  }

  lemma AllRankedIs(o: Options, c: Corpus, terms: seq<Token>)
    ensures multiset(AllRanked(o, c, terms)) == Scored(o, c, terms)
    ensures forall i, j :: 0 <= i < j < |AllRanked(o, c, terms)| ==> Before(AllRanked(o, c, terms)[i], AllRanked(o, c, terms)[j])
  {
    var all := SeqOf(Scored(o, c, terms));
    forall x ensures multiset(all)[x] <= 1 { ScoredOnce(o, c, terms, x); }
    SortedStrictly(all, AllRanked(o, c, terms));
  }

  lemma RankedAreScored(o: Options, c: Corpus, terms: seq<Token>, x: Result)
    ensures x in AllRanked(o, c, terms) <==> Scores(o, c, terms, x)
  {
    AllRankedIs(o, c, terms);
    ScoredOnce(o, c, terms, x);
    assert x in AllRanked(o, c, terms) <==> x in multiset(AllRanked(o, c, terms));
  }

  lemma HeadOfRanking(sorted: seq<Result>, n: nat, x: Result)
    requires n <= |sorted| && x in sorted && x !in sorted[..n] && forall i, j :: 0 <= i < j < |sorted| ==> Before(sorted[i], sorted[j])
    ensures n < |sorted| && forall i :: 0 <= i < n ==> Before(sorted[..n][i], x)
  {
    var k :| 0 <= k < |sorted| && sorted[k] == x;
    assert forall i :: 0 <= i < n ==> sorted[..n][i] == sorted[i];
  }

  /** A search returns documents that score, the higher scores first and the lower ids among equal
      ones, at most as many as asked for; a document that scores is left out only if the list is full
      of better ones. */
  lemma RankedIs(o: Options, c: Corpus, terms: seq<Token>)
    ensures var r := Ranked(o, c, terms);
            && |r| <= (if o.limit == 0 then 10 else o.limit) && (forall x :: x in r ==> Scores(o, c, terms, x))
            && (forall i, j :: 0 <= i < j < |r| ==> Before(r[i], r[j]))
            && (forall x :: Scores(o, c, terms, x) && x !in r ==> Beaten(o, r, x))
  {
    RankedInOrder(o, c, terms);
    forall x | x in Ranked(o, c, terms) ensures Scores(o, c, terms, x) { RankedScores(o, c, terms, x); }
    forall x | Scores(o, c, terms, x) && x !in Ranked(o, c, terms) ensures Beaten(o, Ranked(o, c, terms), x) { LeftOutOfRanking(o, c, terms, x); }
  }

  lemma RankedInOrder(o: Options, c: Corpus, terms: seq<Token>)
    ensures var r := Ranked(o, c, terms); |r| <= Limit(o) && forall i, j :: 0 <= i < j < |r| ==> Before(r[i], r[j])
  {
    RankedIsHead(o, c, terms);
    AllRankedIs(o, c, terms);
  }

  lemma RankedScores(o: Options, c: Corpus, terms: seq<Token>, x: Result)
    requires x in Ranked(o, c, terms)
    ensures Scores(o, c, terms, x)
  {
    RankedIsHead(o, c, terms);
    RankedAreScored(o, c, terms, x);
  }

  /** The list is full of better results. */
  ghost predicate Beaten(o: Options, r: seq<Result>, x: Result) { |r| == Limit(o) && forall i :: 0 <= i < |r| ==> Before(r[i], x) }

  lemma LeftOutOfRanking(o: Options, c: Corpus, terms: seq<Token>, x: Result)
    requires Scores(o, c, terms, x) && x !in Ranked(o, c, terms)
    ensures Beaten(o, Ranked(o, c, terms), x)
  {
    RankedIsHead(o, c, terms);
    RankedAreScored(o, c, terms, x);
    AllRankedIs(o, c, terms);
    HeadOfRanking(AllRanked(o, c, terms), |Ranked(o, c, terms)|, x);
  }

  lemma RankedIsHead(o: Options, c: Corpus, terms: seq<Token>)
    ensures var sorted := AllRanked(o, c, terms); Ranked(o, c, terms) == sorted[..Least(Limit(o), |sorted|)]
  {
    var all := SeqOf(Scored(o, c, terms));
    SortByElements(ResultLe, all);
    assert |AllRanked(o, c, terms)| == |multiset(all)| == |all|;
  }

  // Frequencies in plain terms.

  lemma {:induction false} CountIsMultiplicity(tokens: seq<Token>, t: Token)
    ensures Count(tokens, t) == multiset(tokens)[t]
  {
    if tokens != [] {
      var n := |tokens| - 1;
      assert tokens == tokens[..n] + [tokens[n]];
      CountIsMultiplicity(tokens[..n], t);
    }
  }

  /** In exact search the frequency of a term is how often its lower-case form occurs. */
  lemma {:induction false} ExactFrequency(o: Options, tokens: seq<Token>, term: Token)
    requires o.maxDistance == 0
    ensures Frequency(o, tokens, term) == multiset(tokens)[o.lower(term)]
  {
    if tokens != [] {
      var n := |tokens| - 1;
      assert tokens == tokens[..n] + [tokens[n]];
      ExactFrequency(o, tokens[..n], term);
    }
  }

  // Which documents are in it.

  lemma {:induction false} NoneWithoutTokens(o: Options, term: Token)
    ensures Frequency(o, [], term) == 0
  {
  }

  lemma CountedAmong(o: Options, c: Corpus, term: Token, id: nat)
    requires id in c && Frequency(o, c[id], term) > 0
    ensures 0 < DocumentFrequency(o, c, term) <= |c|
  {
    var having := DocumentsWith(o, c, term);
    assert id in having && having <= c.Keys;
    assert |c| == |c.Keys| && c.Keys == having + (c.Keys - having) && |c.Keys| == |having| + |c.Keys - having|;
  }

  lemma SomeLength(c: Corpus, id: nat)
    requires id in c && c[id] != []
    ensures TotalLength(c) > 0
  {
    var ids := SeqOf(multiset(c.Keys));
    SeqOfListing(c.Keys);
    var i :| 0 <= i < |ids| && ids[i] == id;
    InSumAt(TokensOf(c), ids, i, c[id][0]);
  }

  /** A document has a result exactly when some term of the query occurs in it. */
  lemma MatchingDocumentsScore(o: Options, c: Corpus, terms: seq<Token>, id: nat)
    requires Logarithmic(o.log) && id in c
    ensures ScoreOf(o, c, terms, id) > 0.0 <==> exists i :: 0 <= i < |terms| && Frequency(o, c[id], terms[i]) > 0
  {
    var f, df := Frequencies(o, c[id], terms), DocumentFrequencies(o, c, terms);
    forall i | 0 <= i < |f| && f[i] > 0 ensures 0 < df[i] <= |c| { CountedAmong(o, c, terms[i], id); }
    if i :| 0 <= i < |f| && f[i] > 0 {
      if c[id] == [] { NoneWithoutTokens(o, terms[i]); }
      SomeLength(c, id);
      assert |c| == |c.Keys| && id in c.Keys;
    }
    ScoresIffOccurs(o, f, df, |c[id]|, |c|, TotalLength(c));
  }
}
