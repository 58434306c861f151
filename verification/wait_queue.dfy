/**
The intrusive doubly linked wait queue.  Every operation is proved against a sequence of
links: push appends, pop takes the first, removal deletes anywhere and does nothing to a
link that is not queued.
*/
module WaitQueue {
  import opened Options
  import opened Sequences

  class Link<T> {
    const val: T
    var next: Link?<T>
    var prev: Link?<T>
    var isPopped: bool

    constructor (val: T)
      ensures this.val == val && Fresh()
    {
      this.val := val;
      next, prev, isPopped := null, null, false;
    }

    /** The link was never pushed. */
    ghost predicate Fresh()
      reads this
    {
      next == null && prev == null && !isPopped
    }
  }

  class DoublyLinkedList<T> {
    var head: Link?<T>
    var tail: Link?<T>
    ghost var links: seq<Link<T>>

    /** `links` lists the nodes from `head` to `tail`; the pointers say exactly that. */
    ghost predicate Valid()
      reads this, links
    {
      Chained() && forall i :: 0 <= i < |links| ==> !links[i].isPopped
    }

    /** Valid, but for the popped flag of `link`. */
    ghost predicate ValidExcept(link: Link<T>)
      reads this, links
    {
      Chained() && forall i :: 0 <= i < |links| && links[i] != link ==> !links[i].isPopped
    }

    ghost predicate Chained()
      reads this, links
    {
      && (forall i, j :: 0 <= i < j < |links| ==> links[i] != links[j])
      && head == (if links == [] then null else links[0])
      && tail == (if links == [] then null else links[|links| - 1])
      && (links != [] ==> links[0].prev == null && links[|links| - 1].next == null)
      && (forall i {:trigger links[i].next} :: 0 <= i < |links| - 1 ==> links[i].next == links[i + 1])
      && (forall i {:trigger links[i].prev} :: 0 < i < |links| ==> links[i].prev == links[i - 1])
    }

    constructor ()
      ensures Valid() && links == []
    {
      head, tail, links := null, null, [];
    }

    method Pop() returns (r: Option<T>)
      requires Valid()
      modifies this, links
      ensures Valid()
      ensures old(links) == [] ==> r == None && links == []
      ensures old(links) != [] ==>
                && r == Some(old(links)[0].val) && links == old(links)[1..]
                && old(links)[0].isPopped && old(links)[0].next == null && old(links)[0].prev == null
    {
      if head != null {
        var h := head;
        head := h.next;
        var val := h.val;
        if h == tail {
          tail := null;
        }
        if h.next != null {
          h.next.prev := null;
        }
        h.next := null;
        h.prev := null;
        h.isPopped := true;
        links := links[1..];
        return Some(val);
      }
      return None;
    }

    method Push(link: Link<T>)
      requires Valid() && link.Fresh() && link !in links
      modifies this, links, link
      ensures Valid() && links == old(links) + [link]
    {
      if tail != null {
        link.prev := tail;
        var t := tail;
        tail := link;
        t.next := link;
      } else {
        tail := link;
        head := link;
      }
      links := links + [link];
    }

    method IsEmpty() returns (r: bool)
      requires Valid()
      ensures r <==> links == []
    {
      r := head == null;
    }

    /** `Link::remove_from_list`, for a link of this list, a popped one or one never pushed. */
    method Remove(link: Link<T>)
      requires Valid() && (link in links || link.isPopped || link.Fresh())
      modifies this, links, link
      ensures Valid() && link.isPopped && link !in links
      ensures links == Without(old(links), link)
      ensures old(link.isPopped) ==> unchanged(this) && unchanged(link) && forall l :: l in links ==> unchanged(l)
    {
      if link.isPopped {
        WithoutAbsent(links, link);
        return;
      }
      var prev := link.prev;
      var next := link.next;
      link.isPopped := true;
      ghost var k := IndexOf(links, link);
      if k < |links| {
        WithoutAt(links, k);
      } else {
        WithoutAbsent(links, link);
      }
      Bypass(link, prev, next, k);
    }

    /** The four cases of `remove_from_list`; the link is at position `k`, or not queued if `k` is the length. */
    method Bypass(link: Link<T>, prev: Link?<T>, next: Link?<T>, ghost k: nat)
      requires ValidExcept(link) && link.isPopped && prev == link.prev && next == link.next
      requires k <= |links| && (k < |links| ==> links[k] == link)
      requires k == |links| ==> link !in links && prev == null && next == null
      modifies this, links`next, links`prev
      ensures Valid() && links == old(if k < |links| then links[..k] + links[k + 1..] else links) && link !in links
    {
      if prev == null && next == null {
        assert k == |links| || |links| == 1;
        if link == head {
          head := null;
          tail := null;
        }
      } else if prev == null {
        assert k == 0 && next == links[1];
        next.prev := null;
        head := next;
      } else if next == null {
        assert k == |links| - 1 && prev == links[k - 1];
        prev.next := null;
        tail := prev;
      } else {
        assert prev == links[k - 1] && next == links[k + 1];
        prev.next := next;
        next.prev := prev;
      }
      links := if k < |links| then links[..k] + links[k + 1..] else links;
    }

    /** Walking `next` from a queued link and back along `prev` returns to it, and conversely. */
    lemma PointersAreInverse(l: Link<T>)
      requires Valid() && l in links
      ensures l.next != null ==> l.next in links && l.next.prev == l
      ensures l.prev != null ==> l.prev in links && l.prev.next == l
      ensures l.prev == null <==> l == head
      ensures l.next == null <==> l == tail
    {
      var i :| 0 <= i < |links| && links[i] == l;
      if i + 1 < |links| { assert links[i + 1].prev == links[i]; }
      if i > 0 { assert links[i - 1].next == links[i]; }
    }
  }
}
