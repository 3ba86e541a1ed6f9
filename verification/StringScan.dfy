/** Substring scanning for split and replace: a direct loop for short texts and a
    Knuth-Morris-Pratt scan, which can be interrupted, for long ones. */
module StringScan {

  import opened Values

  predicate MatchAt(text: Text, needle: Text, p: nat) {
    p + |needle| <= |text| && text[p..p + |needle|] == needle
  }

  /** Offsets of the leftmost non-overlapping occurrences from `start` on. */
  function Matches(text: Text, needle: Text, start: nat): seq<nat>
    requires needle != []
    decreases |text| - start
  {
    if start + |needle| > |text| then []
    else if MatchAt(text, needle, start) then [start] + Matches(text, needle, start + |needle|)
    else Matches(text, needle, start + 1)
  }

  lemma {:induction false} SkipMatches(text: Text, needle: Text, first: nat, end: nat)
    requires needle != [] && first <= end && forall p :: first <= p < end ==> !MatchAt(text, needle, p)
    ensures Matches(text, needle, first) == Matches(text, needle, end)
    decreases end - first
  {
    if first < end { SkipMatches(text, needle, first + 1, end); }
  }

  /** The first k characters of the needle end the first i characters of s. */
  predicate Ends(s: Text, i: nat, needle: Text, k: nat) {
    i <= |s| && k <= i && k <= |needle| && s[i - k..i] == needle[..k]
  }

  ghost predicate IsBorder(needle: Text, q: nat, b: nat) {
    b < q <= |needle| && Ends(needle, q, needle, b)
  }

  ghost predicate LongestBorder(needle: Text, q: nat, b: nat) {
    IsBorder(needle, q, b) && forall c: nat :: IsBorder(needle, q, c) ==> c <= b
  }

  /** prefix[q - 1] is the longest border of the first q characters, for 1 <= q <= n. */
  ghost predicate Table(needle: Text, prefix: seq<nat>, n: nat) {
    n <= |prefix| <= |needle| && forall i :: 0 <= i < n ==> LongestBorder(needle, i + 1, prefix[i])
  }

  /** No end of the first n characters is longer than `next`, up to `top`. */
  ghost predicate NoneLonger(s: Text, n: nat, needle: Text, next: nat, top: nat) {
    forall k :: next < k <= top ==> !Ends(s, n, needle, k)
  }

  /** Two ends of the same text: the shorter one is a border of the longer one. */
  lemma ShorterEndIsBorder(s: Text, i: nat, needle: Text, j: nat, k: nat)
    requires Ends(s, i, needle, j) && Ends(s, i, needle, k) && k < j
    ensures IsBorder(needle, j, k)
  {
    assert needle[..j][j - k..] == s[i - j..i][j - k..] == s[i - k..i];
    assert needle[j - k..j] == needle[..j][j - k..];
  }

  lemma BorderOfEnd(s: Text, i: nat, needle: Text, j: nat, b: nat)
    requires Ends(s, i, needle, j) && IsBorder(needle, j, b)
    ensures Ends(s, i, needle, b)
  {
    assert s[i - b..i] == s[i - j..i][j - b..];
    assert needle[j - b..j] == needle[..j][j - b..];
  }

  /** A longer end is a shorter end followed by the next character. */
  lemma ExtendEnd(s: Text, i: nat, needle: Text, k: nat)
    requires i < |s| && k < |needle|
    ensures Ends(s, i + 1, needle, k + 1) <==> Ends(s, i, needle, k) && s[i] == needle[k]
  {
    if k <= i {
      assert s[i - k..i + 1] == s[i - k..i] + [s[i]];
      assert needle[..k + 1] == needle[..k] + [needle[k]];
      if s[i - k..i + 1] == needle[..k + 1] {
        assert s[i - k..i] == s[i - k..i + 1][..k] && needle[..k] == needle[..k + 1][..k];
        assert s[i] == s[i - k..i + 1][k] == needle[..k + 1][k];
      }
    }
  }

  /** Every end longer than j, up to j0, cannot be extended by s[i]. */
  ghost predicate Ruled(s: Text, i: nat, needle: Text, j: nat, j0: nat)
    requires i < |s| && j0 < |needle|
  {
    forall k :: j < k <= j0 && Ends(s, i, needle, k) ==> s[i] != needle[k]
  }

  /** Fall back through the borders until the next character fits; every round is one step. */
  method FallBack(s: Text, i: nat, needle: Text, prefix: seq<nat>, j0: nat) returns (j: nat, steps: nat)
    requires i < |s| && j0 < |needle| && Ends(s, i, needle, j0) && Table(needle, prefix, j0)
    ensures j <= j0 && Ends(s, i, needle, j) && Ruled(s, i, needle, j, j0)
    ensures j == 0 || s[i] == needle[j]
    ensures steps + j <= j0
  {
    j, steps := j0, 0;
    while j > 0 && s[i] != needle[j]
      invariant j <= j0 && Ends(s, i, needle, j) && Ruled(s, i, needle, j, j0)
      invariant steps + j <= j0
    {
      steps := steps + 1;
      var b := prefix[j - 1];
      assert LongestBorder(needle, j, b);
      BorderOfEnd(s, i, needle, j, b);
      forall k | b < k <= j0 && Ends(s, i, needle, k) ensures s[i] != needle[k] {
        if k < j {
          ShorterEndIsBorder(s, i, needle, j, k);
        }
      }
      j := b;
    }
  }

  /** After the fallback the longest extendable end is known. */
  lemma LongestExtension(s: Text, i: nat, needle: Text, j: nat, j0: nat, next: nat)
    requires i < |s| && j <= j0 < |needle| && Ends(s, i, needle, j) && Ruled(s, i, needle, j, j0)
    requires (j == 0 || s[i] == needle[j]) && next == (if s[i] == needle[j] then j + 1 else 0)
    ensures Ends(s, i + 1, needle, next)
    ensures NoneLonger(s, i + 1, needle, next, j0 + 1)
  {
    ExtendEnd(s, i, needle, j);
    var n := i + 1;
    forall k | next < k <= j0 + 1 ensures !Ends(s, n, needle, k) {
      ExtendEnd(s, i, needle, k - 1);
    }
  }

  /** The border table of the needle, in at most two steps per character. */
  method BuildTable(needle: Text) returns (prefix: seq<nat>, steps: nat)
    requires needle != []
    ensures |prefix| == |needle| && Table(needle, prefix, |needle|)
    ensures steps <= 2 * |needle|
  {
    prefix, steps := [0], 0;
    var i, j := 1, 0;
    FirstBorder(needle);
    while i < |needle|
      invariant 1 <= i <= |needle| && |prefix| == i && Table(needle, prefix, i)
      invariant 0 <= j < i && LongestBorder(needle, i, j)
      invariant steps + j <= 2 * (i - 1)
    {
      steps := steps + 1;
      TablePrefix(needle, prefix, i, j);
      var back, more := FallBack(needle, i, needle, prefix, j);
      steps := steps + more;
      var next := if needle[i] == needle[back] then back + 1 else 0;
      LongestExtension(needle, i, needle, back, j, next);
      NextBorder(needle, i, j, next);
      TableGrows(needle, prefix, i, next);
      prefix := prefix + [next];
      j := next;
      i := i + 1;
    }
  }

  lemma FirstBorder(needle: Text)
    requires needle != []
    ensures LongestBorder(needle, 1, 0) && Table(needle, [0], 1)
  {
    assert needle[1..1] == needle[..0];
  }

  lemma TablePrefix(needle: Text, prefix: seq<nat>, i: nat, j: nat)
    requires Table(needle, prefix, i) && j <= i
    ensures Table(needle, prefix, j)
  {
  }

  lemma TableGrows(needle: Text, prefix: seq<nat>, i: nat, next: nat)
    requires i < |needle| && |prefix| == i && Table(needle, prefix, i) && LongestBorder(needle, i + 1, next)
    ensures Table(needle, prefix + [next], i + 1)
  {
  }

  lemma NextBorder(needle: Text, i: nat, j: nat, next: nat)
    requires 1 <= i < |needle| && LongestBorder(needle, i, j) && next <= j + 1 && Ends(needle, i + 1, needle, next)
    requires NoneLonger(needle, i + 1, needle, next, j + 1)
    ensures LongestBorder(needle, i + 1, next)
  {
    var n := i + 1;
    forall c: nat | IsBorder(needle, n, c) ensures c <= next {
      if c > 0 {
        ExtendEnd(needle, i, needle, c - 1);
        assert IsBorder(needle, i, c - 1);
      }
    }
  }

  lemma MatchIsEnd(text: Text, needle: Text, p: nat, n: nat)
    requires MatchAt(text, needle, p) && p <= n <= p + |needle|
    ensures Ends(text, n, needle, n - p)
  {
    assert text[p..p + |needle|][..n - p] == text[p..n];
  }

  /** No occurrence starts where an end was given up. */
  lemma NothingSkipped(text: Text, needle: Text, i: nat, j0: nat, next: nat)
    requires i < |text| && j0 < |needle| && next <= j0 + 1 && j0 <= i
    requires NoneLonger(text, i + 1, needle, next, j0 + 1)
    ensures Matches(text, needle, i - j0) == Matches(text, needle, i + 1 - next)
  {
    forall p | i - j0 <= p < i + 1 - next ensures !MatchAt(text, needle, p) {
      if MatchAt(text, needle, p) { MatchIsEnd(text, needle, p, i + 1); }
    }
    SkipMatches(text, needle, i - j0, i + 1 - next);
  }

  lemma Skipped(text: Text, needle: Text, i: nat, back: nat, j: nat, next: nat)
    requires i < |text| && back <= j < |needle| && Ends(text, i, needle, back) && Ruled(text, i, needle, back, j)
    requires (back == 0 || text[i] == needle[back]) && next == (if text[i] == needle[back] then back + 1 else 0) && j <= i
    ensures Ends(text, i + 1, needle, next) && Matches(text, needle, i - j) == Matches(text, needle, i + 1 - next)
  {
    LongestExtension(text, i, needle, back, j, next);
    NothingSkipped(text, needle, i, j, next);
  }

  /** Read text[i]: the longest end becomes `next`, and no occurrence is passed over. */
  method ReadCharacter(text: Text, needle: Text, prefix: seq<nat>, i: nat, j: nat, ghost at: nat)
    returns (next: nat, steps: nat, ghost at': nat)
    requires i < |text| && j < |needle| && Ends(text, i, needle, j) && Table(needle, prefix, |needle|) && at == i - j
    ensures next <= |needle| && Ends(text, i + 1, needle, next) && at' == i + 1 - next
    ensures Matches(text, needle, at) == Matches(text, needle, at')
    ensures steps + next <= j + 2
  {
    TablePrefix(needle, prefix, |needle|, j);
    var back;
    back, steps := FallBack(text, i, needle, prefix, j);
    steps := steps + 1;
    next := if text[i] == needle[back] then back + 1 else 0;
    Skipped(text, needle, i, back, j, next);
    at' := i + 1 - next;
  }

  /** The interruptible scan visits exactly the leftmost non-overlapping occurrences and
      takes at most two steps per character of needle and text. */
  method Scan(text: Text, needle: Text) returns (found: seq<nat>, steps: nat)
    requires needle != []
    ensures found == Matches(text, needle, 0)
    ensures steps <= 2 * (|needle| + |text|)
  {
    found, steps := [], 0;
    if |needle| > |text| {
      return;
    }
    var prefix;
    prefix, steps := BuildTable(needle);
    var i: nat, j: nat := 0, 0;
    ghost var at: nat, rest, goal := 0, Matches(text, needle, 0), Matches(text, needle, 0);
    while i < |text|
      invariant i <= |text| && j < |needle| && Ends(text, i, needle, j)
      invariant at == i - j && rest == Matches(text, needle, at) && found + rest == goal
      invariant steps + j <= 2 * |needle| + 2 * i
    {
      var next, more;
      next, more, at := ReadCharacter(text, needle, prefix, i, j, at);
      steps := steps + more;
      i := i + 1;
      j := next;
      if j == |needle| {
        rest := MatchFound(text, needle, i, at);
        Shift(found, at, rest);
        found := found + [i - j];
        j := 0;
        at := i;
      }
    }
  }

  lemma MatchFound(text: Text, needle: Text, i: nat, at: nat) returns (rest: seq<nat>)
    requires needle != [] && Ends(text, i, needle, |needle|) && at == i - |needle|
    ensures rest == Matches(text, needle, i) && Matches(text, needle, at) == [at] + rest
  {
    rest := Matches(text, needle, i);
    assert needle[..|needle|] == needle;
    assert MatchAt(text, needle, at);
  }

  /** First occurrence at or after `start`, if any. */
  method Find(text: Text, needle: Text, start: nat) returns (index: int)
    requires needle != []
    ensures index < 0 ==> Matches(text, needle, start) == []
    ensures index >= 0 ==> start <= index <= |text| - |needle|
                           && Matches(text, needle, start) == [index as nat] + Matches(text, needle, index + |needle|)
  {
    var p := start;
    while p + |needle| <= |text|
      invariant start <= p && Matches(text, needle, start) == Matches(text, needle, p)
      decreases |text| - p
    {
      if text[p..p + |needle|] == needle {
        return p;
      }
      p := p + 1;
    }
    return -1;
  }

  lemma Shift(found: seq<nat>, index: nat, tail: seq<nat>)
    ensures found + ([index] + tail) == (found + [index]) + tail
  {
  }

  /** The direct loop visits the same occurrences. */
  method DirectScan(text: Text, needle: Text) returns (found: seq<nat>)
    requires needle != []
    ensures found == Matches(text, needle, 0)
  {
    found := [];
    var start: nat := 0;
    ghost var rest := Matches(text, needle, 0);
    while start + |needle| <= |text|
      invariant rest == Matches(text, needle, start) && found + rest == Matches(text, needle, 0)
      decreases |text| - start
    {
      var index := Find(text, needle, start);
      if index < 0 {
        return;
      }
      ghost var tail := Matches(text, needle, index + |needle|);
      Shift(found, index, tail);
      found := found + [index];
      start := index + |needle|;
      rest := tail;
    }
  }

  /** The scan both functions below rely on: the direct loop up to 4096 characters or without
      a budget, the interruptible scan otherwise. */
  method Visit(text: Text, needle: Text, budgeted: bool) returns (found: seq<nat>)
    requires needle != []
    ensures found == Matches(text, needle, 0)
  {
    if !budgeted || |text| <= 4096 {
      found := DirectScan(text, needle);
    } else {
      var steps;
      found, steps := Scan(text, needle);
    }
  }
}
