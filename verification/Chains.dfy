/** The intrusive doubly linked list behind the vector record cache (most recent first) and
    the retained generations (oldest first). */
module Chains {
  import opened Orders

  class Link<T> {
    var prev: Link?<T>
    var next: Link?<T>
    var item: T

    constructor (item: T)
      ensures this.item == item && prev == null && next == null
    {
      this.item := item;
      prev, next := null, null;
    }
  }

  function Cut<X>(s: seq<X>, k: nat): seq<X>
    requires k < |s|
  {
    s[..k] + s[k + 1..]
  }

  lemma CutAt<X>(s: seq<X>, k: nat)
    requires k < |s|
    ensures |Cut(s, k)| == |s| - 1 && forall i :: 0 <= i < |s| - 1 ==> Cut(s, k)[i] == s[if i < k then i else i + 1]
  {
  }

  lemma OffList<X>(links: seq<X>, k: nat)
    requires k < |links| && Distinct(links)
    ensures links[k] !in Cut(links, k)
  {
  }

  /** Pointers and ends describe exactly the sequence `links`. */
  class Chain<T(!new)> {
    var head: Link?<T>
    var tail: Link?<T>
    ghost var links: seq<Link<T>>

    ghost predicate Valid()
      reads this, links`prev, links`next
    {
      && Distinct(links)
      && (links == [] ==> head == null && tail == null)
      && (links != [] ==> head == links[0] && tail == links[|links| - 1] && links[0].prev == null && links[|links| - 1].next == null)
      && (forall i {:trigger links[i].next} :: 0 <= i < |links| - 1 ==> links[i].next == links[i + 1])
      && (forall i {:trigger links[i].prev} :: 0 < i < |links| ==> links[i].prev == links[i - 1])
    }

    constructor ()
      ensures Valid() && links == []
    {
      head, tail, links := null, null, [];
    }

    /** Forget all links without touching them. */
    method Clear()
      modifies this
      ensures Valid() && links == []
    {
      head, tail, links := null, null, [];
    }

    method PushFront(entry: Link<T>)
      requires Valid() && entry !in links
      modifies this, entry`prev, entry`next, links`prev
      ensures Valid() && links == [entry] + old(links)
    {
      entry.prev, entry.next := null, head;
      if head != null {
        head.prev := entry;
      } else {
        tail := entry;
      }
      head := entry;
      links := [entry] + links;
    }

    method PushBack(entry: Link<T>)
      requires Valid() && entry !in links
      modifies this, entry`prev, entry`next, links`next
      ensures Valid() && links == old(links) + [entry]
    {
      entry.prev, entry.next := tail, null;
      if tail != null {
        tail.next := entry;
      } else {
        head := entry;
      }
      tail := entry;
      links := links + [entry];
    }

    method Unlink(entry: Link<T>, ghost k: nat)
      requires Valid() && k < |links| && links[k] == entry
      modifies this, links`prev, links`next
      ensures Valid() && links == Cut(old(links), k)
    {
      if entry.prev != null {
        entry.prev.next := entry.next;
      } else {
        head := entry.next;
      }
      if entry.next != null {
        entry.next.prev := entry.prev;
      } else {
        tail := entry.prev;
      }
      entry.prev, entry.next := null, null;
      links := Cut(links, k);
    }
  }
}
