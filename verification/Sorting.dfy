/** The bottom-up merge sort that ranks full-text results and orders map keys: runs of
    doubling width are merged from one buffer into another. */
module Sorting {
  import opened Orders

  function Min(x: nat, y: nat): nat { if x <= y then x else y }

  ghost predicate SortedRange<T>(le: (T, T) -> bool, s: seq<T>, lo: nat, hi: nat) {
    forall i, j :: lo <= i < j < hi && j < |s| ==> le(s[i], s[j])
  }

  /** `done` is the merge of src[left..i] and src[middle..j]. */
  ghost predicate Merging<T>(le: (T, T) -> bool, src: seq<T>, done: seq<T>, left: nat, i: nat, middle: nat, j: nat, right: nat) {
    && left <= i <= middle <= j <= right <= |src| && |done| == (i - left) + (j - middle)
    && Sorted(le, done)
    && (forall k :: 0 <= k < |done| && i < middle ==> le(done[k], src[i]))
    && (forall k :: 0 <= k < |done| && j < right ==> le(done[k], src[j]))
    && multiset(done) == multiset(src[left..i]) + multiset(src[middle..j])
  }

  lemma RangeGrows<T>(s: seq<T>, lo: nat, hi: nat)
    requires lo <= hi < |s|
    ensures multiset(s[lo..hi + 1]) == multiset(s[lo..hi]) + multiset{s[hi]}
  {
    assert s[lo..hi + 1] == s[lo..hi] + [s[hi]];
  }

  lemma TakeLeft<T(!new)>(le: (T, T) -> bool, src: seq<T>, done: seq<T>, left: nat, i: nat, middle: nat, j: nat, right: nat)
    requires TotalPreorder(le) && Merging(le, src, done, left, i, middle, j, right)
    requires SortedRange(le, src, left, middle) && i < middle && (j < right ==> le(src[i], src[j]))
    ensures Merging(le, src, done + [src[i]], left, i + 1, middle, j, right)
  {
    RangeGrows(src, left, i);
    forall k | 0 <= k < |done| && i + 1 < middle ensures le(done[k], src[i + 1]) {
      Transitivity(le, done[k], src[i], src[i + 1]);
    }
  }

  lemma TakeRight<T(!new)>(le: (T, T) -> bool, src: seq<T>, done: seq<T>, left: nat, i: nat, middle: nat, j: nat, right: nat)
    requires TotalPreorder(le) && Merging(le, src, done, left, i, middle, j, right)
    requires SortedRange(le, src, middle, right) && j < right && (i < middle ==> le(src[j], src[i]))
    ensures Merging(le, src, done + [src[j]], left, i, middle, j + 1, right)
  {
    RangeGrows(src, middle, j);
    forall k | 0 <= k < |done| && j + 1 < right ensures le(done[k], src[j + 1]) {
      Transitivity(le, done[k], src[j], src[j + 1]);
    }
  }

  /** Merge the runs [left, middle) and [middle, right) of `from` into the same place of
      `to`; on a tie the left run goes first. */
  method MergeInto<T(!new)>(le: (T, T) -> bool, from: array<T>, to: array<T>, left: nat, middle: nat, right: nat, ghost src: seq<T>)
    returns (ghost done: seq<T>)
    requires TotalPreorder(le) && left <= middle <= right <= from.Length == to.Length && from != to && src == from[..]
    requires SortedRange(le, src, left, middle) && SortedRange(le, src, middle, right)
    modifies to
    ensures forall k :: 0 <= k < left ==> to[k] == old(to[k])
    ensures Merging(le, src, done, left, middle, middle, right, right)
    ensures Holds(to, left, done)
  {
    var i: nat, j: nat := left, middle;
    done := [];
    while i < middle || j < right
      invariant Merging(le, src, done, left, i, middle, j, right)
      invariant forall k :: 0 <= k < left ==> to[k] == old(to[k])
      invariant Holds(to, left, done)
      decreases (middle - i) + (right - j)
    {
      var takeLeft := j == right || (i < middle && le(from[i], from[j]));
      TakeNext(le, src, done, left, i, middle, j, right, takeLeft);
      var next := from[if takeLeft then i else j];
      Append(to, left, i + j - middle, next, done);
      done := done + [next];
      i, j := if takeLeft then i + 1 else i, if takeLeft then j else j + 1;
    }
  }

  ghost predicate Holds<T>(to: array<T>, left: nat, done: seq<T>)
    reads to
  {
    left + |done| <= to.Length && forall k :: 0 <= k < |done| ==> to[left + k] == done[k]
  }

  method Append<T(!new)>(to: array<T>, left: nat, out: nat, next: T, ghost done: seq<T>)
    requires Holds(to, left, done) && out == left + |done| < to.Length
    modifies to
    ensures Holds(to, left, done + [next])
    ensures forall k :: 0 <= k < left ==> to[k] == old(to[k])
  {
    to[out] := next;
  }

  lemma TakeNext<T(!new)>(le: (T, T) -> bool, src: seq<T>, done: seq<T>, left: nat, i: nat, middle: nat, j: nat, right: nat, takeLeft: bool)
    requires TotalPreorder(le) && Merging(le, src, done, left, i, middle, j, right)
    requires SortedRange(le, src, left, middle) && SortedRange(le, src, middle, right) && (i < middle || j < right)
    requires takeLeft <==> j == right || (i < middle && le(src[i], src[j]))
    ensures Merging(le, src, done + [src[if takeLeft then i else j]], left,
                    if takeLeft then i + 1 else i, middle, if takeLeft then j else j + 1, right)
  {
    if takeLeft {
      TakeLeft(le, src, done, left, i, middle, j, right);
    } else {
      if i < middle { Totality(le, src[i], src[j]); }
      TakeRight(le, src, done, left, i, middle, j, right);
    }
  }

  /** From `left` on, consecutive blocks of `width` elements (the last possibly shorter) are
      each sorted. */
  ghost predicate RunsFrom<T>(le: (T, T) -> bool, s: seq<T>, left: nat, width: nat)
    requires width > 0
    decreases |s| - left
  {
    left < |s| ==> SortedRange(le, s, left, left + width) && RunsFrom(le, s, left + width, width)
  }

  /** The same, for the blocks that end at or before `left`. */
  ghost predicate RunsTo<T>(le: (T, T) -> bool, s: seq<T>, left: nat, width: nat)
    requires width > 0
  {
    left == 0 || (left >= width && SortedRange(le, s, left - width, left) && RunsTo(le, s, left - width, width))
  }

  lemma {:induction false} RunsToFrame<T>(le: (T, T) -> bool, s: seq<T>, t: seq<T>, left: nat, width: nat)
    requires width > 0 && |s| == |t| && RunsTo(le, s, left, width)
    requires forall k :: 0 <= k < left && k < |s| ==> s[k] == t[k]
    ensures RunsTo(le, t, left, width)
    decreases left
  {
    if left > 0 { RunsToFrame(le, s, t, left - width, width); }
  }

  lemma {:induction false} RunsJoin<T>(le: (T, T) -> bool, s: seq<T>, left: nat, width: nat)
    requires width > 0 && RunsTo(le, s, left, width) && RunsFrom(le, s, left, width)
    ensures RunsFrom(le, s, 0, width)
    decreases left
  {
    if left > 0 { RunsJoin(le, s, left - width, width); }
  }

  lemma {:induction false} SingletonRuns<T>(le: (T, T) -> bool, s: seq<T>, left: nat)
    ensures RunsFrom(le, s, left, 1)
    decreases |s| - left
  {
    if left < |s| { SingletonRuns(le, s, left + 1); }
  }

  lemma PrefixGrows<T>(s: seq<T>, lo: nat, hi: nat)
    requires lo <= hi <= |s|
    ensures multiset(s[..hi]) == multiset(s[..lo]) + multiset(s[lo..hi])
  {
    assert s[..hi] == s[..lo] + s[lo..hi];
  }

  lemma MergedPrefix<T>(src: seq<T>, before: seq<T>, after: seq<T>, left: nat, middle: nat, right: nat)
    requires left <= middle <= right <= |src| == |before| == |after|
    requires multiset(before[..left]) == multiset(src[..left])
    requires forall k :: 0 <= k < left ==> after[k] == before[k]
    requires multiset(after[left..right]) == multiset(src[left..middle]) + multiset(src[middle..right])
    ensures multiset(after[..right]) == multiset(src[..right])
  {
    assert after[..left] == before[..left];
    PrefixGrows(after, left, right);
    PrefixGrows(src, left, middle);
    PrefixGrows(src, middle, right);
  }

  lemma LastRun<T>(le: (T, T) -> bool, s: seq<T>, left: nat, width: nat)
    requires width > 0 && RunsFrom(le, s, left, width)
    ensures SortedRange(le, s, left, left + width)
    ensures RunsFrom(le, s, left + width, width)
  {
  }

  /** The pairs of runs in front of `left` have been merged. */
  ghost predicate Passed<T>(le: (T, T) -> bool, src: seq<T>, dst: seq<T>, left: nat, width: nat)
    requires width > 0
  {
    var runs, merged := RunsFrom(le, src, left, width), RunsTo(le, dst, left, 2 * width);
    && |src| == |dst| && runs && merged
    && multiset(dst[..Min(left, |src|)]) == multiset(src[..Min(left, |src|)])
  }

  lemma PassStep<T(!new)>(le: (T, T) -> bool, src: seq<T>, before: seq<T>, after: seq<T>, done: seq<T>, left: nat, width: nat)
    requires width > 0 && Passed(le, src, before, left, width) && left < |src| == |after|
    requires forall k :: 0 <= k < left ==> after[k] == before[k]
    requires var middle, right := Min(left + width, |src|), Min(left + 2 * width, |src|);
             && Merging(le, src, done, left, middle, middle, right, right)
             && after[left..right] == done
    ensures Passed(le, src, after, left + 2 * width, width)
  {
    forall i, j | left <= i < j < Min(left + 2 * width, |src|) ensures le(after[i], after[j]) {
      assert after[i] == done[i - left] && after[j] == done[j - left];
    }
    LastRun(le, src, left, width);
    LastRun(le, src, left + width, width);
    RunsToFrame(le, before, after, left, 2 * width);
    MergedPrefix(src, before, after, left, Min(left + width, |src|), Min(left + 2 * width, |src|));
  }

  method MergePair<T(!new)>(le: (T, T) -> bool, from: array<T>, to: array<T>, left: nat, width: nat, ghost src: seq<T>, ghost before: seq<T>)
    returns (ghost after: seq<T>)
    requires TotalPreorder(le) && width > 0 && from != to && left < from.Length
    requires src == from[..] && before == to[..] && Passed(le, src, before, left, width)
    modifies to
    ensures after == to[..] && Passed(le, src, after, left + 2 * width, width)
  {
    var middle, right := Min(left + width, from.Length), Min(left + 2 * width, from.Length);
    LastRun(le, src, left, width);
    LastRun(le, src, left + width, width);
    ghost var done := MergeInto(le, from, to, left, middle, right, src);
    after := to[..];
    assert after[left..right] == done;
    PassStep(le, src, before, after, done, left, width);
  }

  /** One pass doubles the width of the sorted runs and keeps the elements. */
  method MergePass<T(!new)>(le: (T, T) -> bool, from: array<T>, to: array<T>, width: nat)
    requires TotalPreorder(le) && width > 0 && from.Length == to.Length && from != to
    requires RunsFrom(le, from[..], 0, width)
    modifies to
    ensures RunsFrom(le, to[..], 0, 2 * width)
    ensures multiset(to[..]) == multiset(from[..])
  {
    var left: nat := 0;
    ghost var src, dst := from[..], to[..];
    while left < from.Length
      invariant dst == to[..] && Passed(le, src, dst, left, width)
    {
      dst := MergePair(le, from, to, left, width, src, dst);
      left := left + 2 * width;
    }
    PassEnds(le, src, dst, left, width);
  }

  lemma PassEnds<T(!new)>(le: (T, T) -> bool, src: seq<T>, dst: seq<T>, left: nat, width: nat)
    requires width > 0 && Passed(le, src, dst, left, width) && left >= |src|
    ensures RunsFrom(le, dst, 0, 2 * width) && multiset(dst) == multiset(src)
  {
    assert dst[..|src|] == dst && src[..|src|] == src;
    RunsJoin(le, dst, left, 2 * width);
  }

  /** A pass followed by copying the merged runs back. */
  method MergePassBack<T(!new)>(le: (T, T) -> bool, results: array<T>, scratch: array<T>, width: nat)
    requires TotalPreorder(le) && width > 0 && results.Length == scratch.Length && results != scratch
    requires RunsFrom(le, results[..], 0, width)
    modifies results, scratch
    ensures RunsFrom(le, results[..], 0, 2 * width)
    ensures multiset(results[..]) == old(multiset(results[..]))
  {
    MergePass(le, results, scratch, width);
    ghost var merged := scratch[..];
    forall k | 0 <= k < results.Length {
      results[k] := scratch[k];
    }
    assert results[..] == merged;
  }

  /** The result sort: every pass merges into scratch and copies back. */
  method MergeSort<T(0, !new)>(le: (T, T) -> bool, results: array<T>)
    requires TotalOrder(le)
    modifies results
    ensures results[..] == SortBy(le, old(results[..]))
  {
    ghost var input := results[..];
    var width := 1;
    SingletonRuns(le, input, 0);
    if results.Length >= 2 {
      var scratch := new T[results.Length];
      while width < results.Length
        invariant width > 0 && RunsFrom(le, results[..], 0, width)
        invariant multiset(results[..]) == multiset(input)
        decreases results.Length - width
      {
        MergePassBack(le, results, scratch, width);
        width := 2 * width;
      }
    }
    assert Sorted(le, results[..]);
    OrderOn(le, multiset(input));
    SortedIsSortBy(le, results[..], input);
  }

  /** The key sort: the two buffers swap roles after every pass. */
  method MergeSortSwapping<T(!new)>(le: (T, T) -> bool, keys: array<T>, scratch: array<T>) returns (sorted: array<T>)
    requires TotalOrder(le) && keys.Length == scratch.Length && keys != scratch
    modifies keys, scratch
    ensures (sorted == keys || sorted == scratch) && sorted[..] == SortBy(le, old(keys[..]))
  {
    ghost var input := keys[..];
    SingletonRuns(le, input, 0);
    var from, to := keys, scratch;
    var width := 1;
    while width < keys.Length
      invariant width > 0 && ((from == keys && to == scratch) || (from == scratch && to == keys))
      invariant RunsFrom(le, from[..], 0, width) && multiset(from[..]) == multiset(input)
      decreases keys.Length - width
    {
      MergePass(le, from, to, width);
      from, to := to, from;
      var done := width >= keys.Length - width;
      width := 2 * width;
      if done {
        break;
      }
    }
    assert Sorted(le, from[..]);
    OrderOn(le, multiset(input));
    SortedIsSortBy(le, from[..], input);
    return from;
  }
}
