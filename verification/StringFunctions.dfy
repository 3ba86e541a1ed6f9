/** The split and replace functions of the query language, over the offsets of a scan. */
module StringFunctions {

  import opened Values
  import opened StringScan

  function Join(parts: seq<Text>, glue: Text): Text
    requires parts != []
  {
    if |parts| == 1 then parts[0] else parts[0] + glue + Join(parts[1..], glue)
  }

  /** The text contains no occurrence of the needle. */
  ghost predicate Free(part: Text, needle: Text) {
    NoMatch(part, needle, 0, |part|)
  }

  ghost predicate NoMatch(text: Text, needle: Text, first: nat, end: nat) {
    forall p :: first <= p < end ==> !MatchAt(text, needle, p)
  }

  ghost predicate Step(text: Text, needle: Text, first: nat, offset: nat) {
    first <= offset && MatchAt(text, needle, offset) && NoMatch(text, needle, first, offset)
  }

  /** `found` lists the leftmost non-overlapping occurrences after `first`, with nothing in between. */
  ghost predicate Leftmost(text: Text, needle: Text, first: nat, found: seq<nat>)
    decreases |found|
  {
    if found == [] then first <= |text| && NoMatch(text, needle, first, |text|)
    else Step(text, needle, first, found[0]) && Leftmost(text, needle, found[0] + |needle|, found[1..])
  }

  lemma {:induction false} MatchesAreLeftmost(text: Text, needle: Text, first: nat, o: nat)
    requires needle != [] && first <= o <= |text| && NoMatch(text, needle, first, o)
    ensures Leftmost(text, needle, first, Matches(text, needle, o))
    decreases |text| - o
  {
    if o + |needle| > |text| {
    } else if MatchAt(text, needle, o) {
      var rest := Matches(text, needle, o + |needle|);
      MatchesAreLeftmost(text, needle, o + |needle|, o + |needle|);
      assert ([o] + rest)[1..] == rest;
    } else {
      MatchesAreLeftmost(text, needle, first, o + 1);
    }
  }

  lemma SliceOfSlice(text: Text, start: nat, end: nat, p: nat, width: nat)
    requires start <= end <= |text| && p + width <= end - start
    ensures text[start..end][p..p + width] == text[start + p..start + p + width]
  {
    var part, n := text[start..end], p + width;
    assert |part[p..n]| == width;
    forall k | 0 <= k < width ensures part[p..n][k] == text[start + p..start + p + width][k] {
      assert part[p..n][k] == part[p + k] == text[start + p + k];
    }
  }

  /** A stretch of text where no occurrence starts holds no occurrence. */
  lemma Between(text: Text, needle: Text, start: nat, end: nat)
    requires start <= end <= |text| && NoMatch(text, needle, start, end)
    ensures Free(text[start..end], needle)
  {
    var part := text[start..end];
    forall p | 0 <= p < |part| ensures !MatchAt(part, needle, p) {
      if p + |needle| <= |part| {
        SliceOfSlice(text, start, end, p, |needle|);
        assert !MatchAt(text, needle, start + p);
      }
    }
  }

  /** Every piece followed by the glue. */
  function Prefix(parts: seq<Text>, glue: Text): Text {
    if parts == [] then [] else Prefix(parts[..|parts| - 1], glue) + parts[|parts| - 1] + glue
  }

  ghost predicate AllFree(parts: seq<Text>, needle: Text) {
    forall i :: 0 <= i < |parts| ==> Free(parts[i], needle)
  }

  /** The pieces cut off so far, from the text before `start`. */
  ghost predicate Cutting(text: Text, needle: Text, parts: seq<Text>, start: nat) {
    start <= |text| && AllFree(parts, needle) && Prefix(parts, needle) == text[..start]
  }

  lemma PrefixStep(parts: seq<Text>, piece: Text, glue: Text)
    ensures Prefix(parts + [piece], glue) == Prefix(parts, glue) + piece + glue
  {
    assert (parts + [piece])[..|parts|] == parts;
  }

  lemma CutMore(text: Text, needle: Text, parts: seq<Text>, start: nat, index: nat)
    requires Cutting(text, needle, parts, start) && Step(text, needle, start, index)
    ensures Cutting(text, needle, parts + [text[start..index]], index + |needle|)
  {
    Between(text, needle, start, index);
    PrefixStep(parts, text[start..index], needle);
    assert text[..index + |needle|] == text[..start] + text[start..index] + text[index..index + |needle|];
  }

  lemma {:induction false} JoinIsPrefixPlusLast(parts: seq<Text>, last: Text, glue: Text)
    ensures Join(parts + [last], glue) == Prefix(parts, glue) + last
    decreases |parts|
  {
    if parts == [] {
      assert parts + [last] == [last];
    } else {
      PrefixFromFront(parts, glue);
      JoinIsPrefixPlusLast(parts[1..], last, glue);
      assert (parts + [last])[1..] == parts[1..] + [last];
    }
  }

  lemma Associate(a: Text, b: Text, c: Text, d: Text)
    ensures (a + b) + c + d == a + (b + c + d)
  {
  }

  lemma {:induction false} PrefixFromFront(parts: seq<Text>, glue: Text)
    requires parts != []
    ensures Prefix(parts, glue) == parts[0] + glue + Prefix(parts[1..], glue)
    decreases |parts|
  {
    var n := |parts| - 1;
    if n == 0 {
      assert parts[..0] == [] && parts[1..] == [];
    } else {
      var front, middle := parts[0] + glue, Prefix(parts[1..n], glue);
      assert parts[..n][1..] == parts[1..n] && parts[1..] == parts[1..n] + [parts[n]] && parts == parts[..n] + [parts[n]];
      PrefixFromFront(parts[..n], glue);
      PrefixStep(parts[..n], parts[n], glue);
      PrefixStep(parts[1..n], parts[n], glue);
      Associate(front, middle, parts[n], glue);
    }
  }

  /** The last piece completes the text. */
  lemma CutLast(text: Text, needle: Text, parts: seq<Text>, start: nat)
    requires Cutting(text, needle, parts, start) && NoMatch(text, needle, start, |text|)
    ensures IsSplit(text, needle, parts + [text[start..]])
  {
    Between(text, needle, start, |text|);
    assert text[start..|text|] == text[start..];
    JoinIsPrefixPlusLast(parts, text[start..], needle);
    assert text == text[..start] + text[start..];
  }

  /** The pieces joined by the delimiter give back the text, and none contains the delimiter. */
  ghost predicate IsSplit(text: Text, delimiter: Text, parts: seq<Text>) {
    parts != [] && Join(parts, delimiter) == text && AllFree(parts, delimiter)
  }

  method CutAt(text: Text, needle: Text, found: seq<nat>) returns (parts: seq<Text>)
    requires Leftmost(text, needle, 0, found)
    ensures |parts| == |found| + 1 && IsSplit(text, needle, parts)
  {
    parts := [];
    var start: nat := 0;
    ghost var rest := found;
    for n := 0 to |found|
      invariant |parts| == n && Cutting(text, needle, parts, start)
      invariant rest == found[n..] && Leftmost(text, needle, start, rest)
    {
      var index := found[n];
      CutMore(text, needle, parts, start, index);
      parts := parts + [text[start..index]];
      start := index + |needle|;
      rest := rest[1..];
    }
    CutLast(text, needle, parts, start);
    parts := parts + [text[start..]];
  }

  /** Splitting loses nothing and leaves no delimiter in a piece; an empty delimiter splits into
      single characters. */
  method Split(text: Text, delimiter: Text, budgeted: bool) returns (parts: seq<Text>)
    ensures delimiter != [] ==> IsSplit(text, delimiter, parts) && |parts| == |Matches(text, delimiter, 0)| + 1
    ensures delimiter == [] ==> |parts| == |text| && forall i :: 0 <= i < |text| ==> parts[i] == [text[i]]
  {
    if delimiter == [] {
      parts := seq(|text|, i requires 0 <= i < |text| => text[i..i + 1]);
      return;
    }
    var found := Visit(text, delimiter, budgeted);
    MatchesAreLeftmost(text, delimiter, 0, 0);
    parts := CutAt(text, delimiter, found);
  }

  const LIMIT: nat := 0xffff_ffff_ffff_ffff

  datatype Replaced = Output(text: Text) | TooLarge

  lemma {:induction false} JoinLength(parts: seq<Text>, a: Text, b: Text)
    requires parts != []
    ensures |Join(parts, a)| + (|parts| - 1) * |b| == |Join(parts, b)| + (|parts| - 1) * |a|
    decreases |parts|
  {
    if |parts| > 1 {
      JoinLength(parts[1..], a, b);
      var n := |parts| - 2;
      assert (n + 1) * |a| == n * |a| + |a| && (n + 1) * |b| == n * |b| + |b|;
    }
  }

  /** The text from p on with every leftmost occurrence exchanged for the replacement. */
  function Rewritten(text: Text, search: Text, replacement: Text, p: nat): Text
    requires search != [] && p <= |text|
    decreases |text| - p
  {
    if p + |search| > |text| then text[p..]
    else if MatchAt(text, search, p) then replacement + Rewritten(text, search, replacement, p + |search|)
    else [text[p]] + Rewritten(text, search, replacement, p + 1)
  }

  /** Up to the next occurrence the text stays as it is. */
  lemma {:induction false} RewrittenSkips(text: Text, search: Text, replacement: Text, p: nat, end: nat)
    requires search != [] && p <= end <= |text| && NoMatch(text, search, p, end)
    ensures Rewritten(text, search, replacement, p) == text[p..end] + Rewritten(text, search, replacement, end)
    decreases end - p
  {
    if p == end {
      assert text[p..end] == [];
    } else if p + |search| > |text| {
      NothingFits(text, search, replacement, p);
      NothingFits(text, search, replacement, end);
      assert text[p..] == text[p..end] + text[end..];
    } else {
      KeepsCharacter(text, search, replacement, p);
      RewrittenSkips(text, search, replacement, p + 1, end);
      FirstCharacter(text, p, end, Rewritten(text, search, replacement, end));
    }
  }

  lemma KeepsCharacter(text: Text, search: Text, replacement: Text, p: nat)
    requires search != [] && p + |search| <= |text| && !MatchAt(text, search, p)
    ensures Rewritten(text, search, replacement, p) == [text[p]] + Rewritten(text, search, replacement, p + 1)
  {
  }

  lemma FirstCharacter(text: Text, p: nat, end: nat, rest: Text)
    requires p < end <= |text|
    ensures [text[p]] + (text[p + 1..end] + rest) == text[p..end] + rest
  {
    assert text[p..end] == [text[p]] + text[p + 1..end];
  }

  lemma NothingFits(text: Text, search: Text, replacement: Text, p: nat)
    requires search != [] && p <= |text| && p + |search| > |text|
    ensures Rewritten(text, search, replacement, p) == text[p..]
  {
  }

  lemma RewrittenStep(text: Text, search: Text, replacement: Text, start: nat, index: nat)
    requires search != [] && Step(text, search, start, index)
    ensures Rewritten(text, search, replacement, start) == text[start..index] + replacement + Rewritten(text, search, replacement, index + |search|)
  {
    RewrittenSkips(text, search, replacement, start, index);
  }

  lemma RewrittenEnd(text: Text, search: Text, replacement: Text, start: nat)
    requires search != [] && start <= |text| && NoMatch(text, search, start, |text|)
    ensures Rewritten(text, search, replacement, start) == text[start..]
  {
    RewrittenSkips(text, search, replacement, start, |text|);
    NothingFits(text, search, replacement, |text|);
    assert text[start..|text|] + text[|text|..] == text[start..];
  }

  /** The next occurrence: the text up to it, the replacement and what comes after. */
  lemma NextOccurrence(text: Text, search: Text, replacement: Text, start: nat, rest: seq<nat>) returns (after: Text)
    requires search != [] && rest != [] && Leftmost(text, search, start, rest)
    ensures start <= rest[0] && rest[0] + |search| <= |text| && Leftmost(text, search, rest[0] + |search|, rest[1..])
    ensures after == Rewritten(text, search, replacement, rest[0] + |search|)
    ensures start <= |text| && Rewritten(text, search, replacement, start) == text[start..rest[0]] + replacement + after
  {
    after := Rewritten(text, search, replacement, rest[0] + |search|);
    RewrittenStep(text, search, replacement, start, rest[0]);
  }

  lemma WriteMore(output: Text, piece: Text, replacement: Text, after: Text, todo: Text, goal: Text)
    requires todo == piece + replacement + after && output + todo == goal
    ensures ((output + piece) + replacement) + after == goal
  {
    Associate(output, piece, replacement, after);
  }

  lemma WriteEnd(text: Text, search: Text, replacement: Text, start: nat, rest: seq<nat>)
    requires search != [] && rest == [] && Leftmost(text, search, start, rest)
    ensures start <= |text| && Rewritten(text, search, replacement, start) == text[start..]
  {
    RewrittenEnd(text, search, replacement, start);
  }

  method WritePiece(output: Text, piece: Text, replacement: Text, ghost after: Text, ghost todo: Text, ghost goal: Text) returns (r: Text)
    requires todo == piece + replacement + after && output + todo == goal
    ensures r + after == goal
  {
    WriteMore(output, piece, replacement, after, todo, goal);
    r := output + piece;
    r := r + replacement;
  }

  /** Write up to the next occurrence, and its replacement. */
  method WriteOne(text: Text, search: Text, replacement: Text, output: Text, start: nat, rest: seq<nat>, ghost todo: Text, ghost goal: Text)
    returns (output': Text, start': nat, ghost todo': Text)
    requires search != [] && rest != [] && start <= |text| && Leftmost(text, search, start, rest)
    requires todo == Rewritten(text, search, replacement, start) && output + todo == goal
    ensures start' <= |text| && Leftmost(text, search, start', rest[1..])
    ensures todo' == Rewritten(text, search, replacement, start') && output' + todo' == goal
  {
    todo' := NextOccurrence(text, search, replacement, start, rest);
    output' := WritePiece(output, text[start..rest[0]], replacement, todo', todo, goal);
    start' := rest[0] + |search|;
  }

  /** Write the text with every occurrence exchanged for the replacement. */
  method Substitute(text: Text, search: Text, replacement: Text, found: seq<nat>) returns (output: Text)
    requires search != [] && Leftmost(text, search, 0, found)
    ensures output == Rewritten(text, search, replacement, 0)
  {
    output := [];
    var start: nat, rest := 0, found;
    ghost var goal := Rewritten(text, search, replacement, 0);
    ghost var todo := goal;
    while rest != []
      invariant start <= |text| && Leftmost(text, search, start, rest)
      invariant todo == Rewritten(text, search, replacement, start) && output + todo == goal
      decreases |rest|
    {
      output, start, todo := WriteOne(text, search, replacement, output, start, rest, todo, goal);
      rest := rest[1..];
    }
    WriteEnd(text, search, replacement, start, rest);
    output := output + text[start..];
  }

  lemma JoinCons(first: Text, parts: seq<Text>, glue: Text)
    requires parts != []
    ensures Join([first] + parts, glue) == first + glue + Join(parts, glue)
  {
    assert ([first] + parts)[1..] == parts;
  }

  /** Replacing is splitting at the search string and joining by the replacement. */
  lemma {:induction false} ReplacingIsJoining(text: Text, search: Text, replacement: Text, start: nat, found: seq<nat>) returns (parts: seq<Text>)
    requires search != [] && start <= |text| && Leftmost(text, search, start, found)
    ensures |parts| == |found| + 1 && AllFree(parts, search)
    ensures Join(parts, search) == text[start..] && Join(parts, replacement) == Rewritten(text, search, replacement, start)
    decreases |found|
  {
    if found == [] {
      RewrittenEnd(text, search, replacement, start);
      Between(text, search, start, |text|);
      assert text[start..|text|] == text[start..];
      parts := [text[start..]];
    } else {
      var index := found[0];
      assert Step(text, search, start, index);
      var rest := ReplacingIsJoining(text, search, replacement, index + |search|, found[1..]);
      JoinMore(text, search, replacement, start, index, rest);
      FreeMore(text, search, start, index, rest);
      parts := [text[start..index]] + rest;
    }
  }

  lemma JoinMore(text: Text, search: Text, replacement: Text, start: nat, index: nat, rest: seq<Text>)
    requires search != [] && Step(text, search, start, index) && rest != []
    requires Join(rest, search) == text[index + |search|..] && Join(rest, replacement) == Rewritten(text, search, replacement, index + |search|)
    ensures Join([text[start..index]] + rest, search) == text[start..]
    ensures Join([text[start..index]] + rest, replacement) == Rewritten(text, search, replacement, start)
  {
    JoinCons(text[start..index], rest, search);
    JoinCons(text[start..index], rest, replacement);
    Reassemble(text, search, start, index);
    RewrittenStep(text, search, replacement, start, index);
  }

  lemma FreeMore(text: Text, search: Text, start: nat, index: nat, rest: seq<Text>)
    requires Step(text, search, start, index) && AllFree(rest, search)
    ensures AllFree([text[start..index]] + rest, search)
  {
    Between(text, search, start, index);
  }

  lemma Reassemble(text: Text, search: Text, start: nat, index: nat)
    requires start <= index && MatchAt(text, search, index)
    ensures text[start..index] + search + text[index + |search|..] == text[start..]
  {
    assert search == text[index..index + |search|];
  }

  /** The size reserved before the output is written; none when it would not fit 64 bits. */
  function Reserved(text: nat, count: nat, search: nat, replacement: nat): (size: int)
    requires text <= LIMIT
  {
    if replacement <= search then text
    else if count > (LIMIT - text) / (replacement - search) then -1
    else text + count * (replacement - search)
  }

  /** The reservation covers the output and stays in 64 bits; it is refused exactly when the
      output would not fit. */
  lemma ReservationIsExact(text: nat, count: nat, search: nat, replacement: nat, output: nat)
    requires text <= LIMIT && output + count * search == text + count * replacement
    ensures var size := Reserved(text, count, search, replacement);
            (size < 0 <==> output > LIMIT) && (size >= 0 ==> output <= size <= LIMIT)
  {
    if replacement > search {
      var growth, room := replacement - search, LIMIT - text;
      assert count * growth == count * replacement - count * search;
      if count > room / growth {
        OverLimit(count, room, growth);
      } else {
        assert count * growth <= (room / growth) * growth;
      }
    } else {
      assert count * replacement <= count * search;
    }
  }

  lemma OverLimit(count: nat, room: nat, growth: nat)
    requires growth > 0 && count > room / growth
    ensures count * growth > room
  {
    assert count * growth >= (room / growth + 1) * growth;
  }

  /** Replacing rewrites every leftmost occurrence, never beyond the reserved size; it fails
      exactly when the output would be larger than 64 bits can count. */
  method Replace(text: Text, search: Text, replacement: Text, budgeted: bool) returns (r: Replaced)
    requires |text| <= LIMIT
    ensures search == [] ==> r == Output(text)
    ensures search != [] ==> r == var whole := Rewritten(text, search, replacement, 0); if |whole| <= LIMIT then Output(whole) else TooLarge
    ensures search != [] && r.Output? ==> |r.text| <= Reserved(|text|, |Matches(text, search, 0)|, |search|, |replacement|) <= LIMIT
  {
    if search == [] {
      return Output(text);
    }
    var found := Visit(text, search, budgeted);
    MatchesAreLeftmost(text, search, 0, 0);
    var size := Reserved(|text|, |found|, |search|, |replacement|);
    OutputSize(text, search, replacement, found);
    if size < 0 {
      return TooLarge;
    }
    var output := Substitute(text, search, replacement, found);
    r := Output(output);
  }

  lemma OutputSize(text: Text, search: Text, replacement: Text, found: seq<nat>)
    requires search != [] && |text| <= LIMIT && Leftmost(text, search, 0, found)
    ensures var size, output := Reserved(|text|, |found|, |search|, |replacement|), |Rewritten(text, search, replacement, 0)|;
            (size < 0 <==> output > LIMIT) && (size >= 0 ==> output <= size <= LIMIT)
  {
    var parts := ReplacingIsJoining(text, search, replacement, 0, found);
    assert text[0..] == text;
    JoinLength(parts, replacement, search);
    ReservationIsExact(|text|, |found|, |search|, |replacement|, |Join(parts, replacement)|);
  }
}
