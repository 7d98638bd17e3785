/** The heap side of the steps that change nodes: the list stays sorted, gap-free and accounted for. */
module ListHeap {
  import opened Words
  import H = HazardPointers
  import opened ListMap
  import opened ListInv
  import opened ListFrame

  /** The order facts depend only on which nodes are linked, their keys and where they lead. */
  lemma SameLinks(h: Heap, head: Addr, h': Heap)
    requires LinksForward(h, head) && NoGaps(h, head) && KeysDiffer(h, head)
    requires forall a {:trigger IsLinked(h', a)} :: IsLinked(h', a) <==> IsLinked(h, a)
    requires forall a {:trigger h'[a]} :: a in h && a in h' ==>
               h'[a].key == h[a].key && (IsLinked(h, a) ==> h'[a].next.ptr == h[a].next.ptr)
    ensures LinksForward(h', head) && NoGaps(h', head) && KeysDiffer(h', head)
  {
    forall a | IsLinked(h', a) && h'[a].next.ptr != 0
      ensures IsLinked(h', h'[a].next.ptr) && Before(h', head, a, h'[a].next.ptr)
    {
      assert IsLinked(h, a);
    }
    forall a, c | IsLinked(h', a) && IsLinked(h', c) && Before(h', head, a, c)
      ensures var b := h'[a].next.ptr; b != 0 && (b == c || (b in h' && Before(h', head, b, c)))
    {
      assert IsLinked(h, a) && IsLinked(h, c) && Before(h, head, a, c);
      assert IsLinked(h, h[a].next.ptr);
    }
    forall a, c | IsLinked(h', a) && IsLinked(h', c) && a != c
      ensures Before(h', head, a, c) || Before(h', head, c, a)
    {
      assert IsLinked(h, a) && IsLinked(h, c);
    }
  }

  /** A change to a node that leaves its place in the list, or outside it, as it was. */
  lemma KeepPlace(h: Heap, head: Addr, a: Addr, n: Node, h': Heap)
    requires ListOk(h, head) && a != head && a != 0 && h' == h[a := n] && NodeOk(n)
    requires if IsLinked(h, a) then n.stage.Linked? && n.key == h[a].key && n.next.ptr == h[a].next.ptr
             else !n.stage.Linked?
    requires a in h ==> n.key == h[a].key
    ensures ListOk(h', head)
  {
    hide LinksForward, NoGaps, KeysDiffer;
    SameLinks(h, head, h');
  }

  /** Removing a node outside the list. */
  lemma RemoveHeap(h: Heap, head: Addr, a: Addr, h': Heap)
    requires ListOk(h, head) && !IsLinked(h, a) && h' == h - {a}
    ensures ListOk(h', head)
  {
    hide LinksForward, NoGaps, KeysDiffer;
    SameLinks(h, head, h');
  }

  /** erase's marking CAS: only the mark bit of one published node changes. */
  lemma MarkHeap(h: Heap, head: Addr, cur: Addr, h': Heap)
    requires ListOk(h, head) && cur in h && cur != head && !h[cur].stage.Private?
    requires h' == h[cur := h[cur].(next := Mark(h[cur].next))]
    ensures ListOk(h', head)
  {
    hide LinksForward, NoGaps, KeysDiffer;
    KeepPlace(h, head, cur, h[cur].(next := Mark(h[cur].next)), h');
  }

  /** What unlinking leaves in place. */
  ghost predicate Unlinked(h: Heap, head: Addr, prev: Addr, cur: Addr, h': Heap)
    reads {}
  {
    && IsLinked(h, prev) && IsLinked(h, cur) && prev != cur && cur != head
    && h[prev].next.ptr == cur && h'.Keys == h.Keys
    && (forall a {:trigger h'[a]} :: a in h && a != prev && a != cur ==> h'[a] == h[a])
    && h'[prev] == h[prev].(next := Clear(h[cur].next)) && h'[cur].key == h[cur].key
    && (forall a {:trigger IsLinked(h', a)} :: IsLinked(h', a) <==> IsLinked(h, a) && a != cur)
  }

  /** find's unlinking CAS: prev now leads past cur. */
  lemma UnlinkHeap(h: Heap, head: Addr, prev: Addr, cur: Addr, t: Tid, h': Heap)
    requires ListOk(h, head) && prev in h && cur in h && cur != head && prev != cur
    requires !h[prev].stage.Private? && h[prev].next == Word(cur, false) && h[cur].next.tag
    requires var h1 := h[prev := h[prev].(next := Clear(h[cur].next))]; h' == h1[cur := h1[cur].(stage := Unlinking(t))]
    ensures ListOk(h', head) && IsLinked(h, prev) && IsLinked(h, cur)
  {
    hide NoGaps, KeysDiffer;
    assert IsLinked(h, prev) && IsLinked(h, h[prev].next.ptr);
    UnlinkForward(h, head, prev, cur, h');
    UnlinkGaps(h, head, prev, cur, h');
    UnlinkKeys(h, head, prev, cur, h');
  }

  lemma UnlinkKeys(h: Heap, head: Addr, prev: Addr, cur: Addr, h': Heap)
    requires KeysDiffer(h, head) && Unlinked(h, head, prev, cur, h')
    ensures KeysDiffer(h', head)
  {
    forall a, c | IsLinked(h', a) && IsLinked(h', c) && a != c
      ensures Before(h', head, a, c) || Before(h', head, c, a)
    {
      assert IsLinked(h, a) && IsLinked(h, c);
    }
  }

  lemma UnlinkForward(h: Heap, head: Addr, prev: Addr, cur: Addr, h': Heap)
    requires ListOk(h, head) && Unlinked(h, head, prev, cur, h')
    ensures LinksForward(h', head)
  {
    forall a | IsLinked(h', a) && h'[a].next.ptr != 0
      ensures IsLinked(h', h'[a].next.ptr) && Before(h', head, a, h'[a].next.ptr)
    {
      assert IsLinked(h, a);
      assert a != prev && Before(h, head, prev, a) ==> h[a].next.ptr != cur;
      assert a != prev && Before(h, head, a, prev) ==> h[a].next.ptr != cur;
    }
  }

  lemma UnlinkGaps(h: Heap, head: Addr, prev: Addr, cur: Addr, h': Heap)
    requires ListOk(h, head) && Unlinked(h, head, prev, cur, h')
    ensures NoGaps(h', head)
  {
    forall a, c | IsLinked(h', a) && IsLinked(h', c) && Before(h', head, a, c)
      ensures var b := h'[a].next.ptr; b != 0 && (b == c || (b in h' && Before(h', head, b, c)))
    {
      assert IsLinked(h, a) && IsLinked(h, c) && Before(h, head, a, c);
      if a == prev {
        assert IsLinked(h, cur) && Before(h, head, cur, c);
      }
    }
  }

  /** insert's publishing CAS: n goes between prev and its successor. */
  lemma PublishHeap(h: Heap, head: Addr, prev: Addr, cur: Addr, n: Addr, mine: Node, h': Heap)
    requires ListOk(h, head) && prev in h && n in h && n != prev && n != head && !h[prev].stage.Private?
    requires h[n].stage.Private? && h[prev].next == Word(cur, false)
    requires prev == head || h[prev].key < h[n].key
    requires cur != 0 ==> cur in h && h[n].key < h[cur].key
    requires mine.key == h[n].key && mine.next == Word(cur, false) && mine.stage == Linked && NodeOk(mine)
    requires h' == h[n := mine][prev := h[prev].(next := Word(n, false))]
    ensures ListOk(h', head) && IsLinked(h, prev)
  {
    assert IsLinked(h, prev);
    assert forall a {:trigger IsLinked(h', a)} :: IsLinked(h', a) <==> IsLinked(h, a) || a == n;
    PublishSplit(h, head, prev, cur, n);
    assert cur != 0 ==> IsLinked(h, cur) && cur != head;
    PublishForward(h, head, prev, cur, n, h');
    PublishGaps(h, head, prev, cur, n, h');
    PublishKeys(h, head, prev, cur, n, h');
  }

  /** Every linked node is at or before prev, or after n. */
  lemma PublishSplit(h: Heap, head: Addr, prev: Addr, cur: Addr, n: Addr)
    requires ListOk(h, head) && IsLinked(h, prev) && n in h && n != head && h[prev].next == Word(cur, false)
    requires prev == head || h[prev].key < h[n].key
    requires cur != 0 ==> cur in h && h[n].key < h[cur].key
    ensures forall c {:trigger IsLinked(h, c)} :: IsLinked(h, c) ==>
              if c == prev || Before(h, head, c, prev) then Before(h, head, c, n)
              else Before(h, head, prev, c) && Before(h, head, n, c)
  {
    forall c | IsLinked(h, c)
      ensures if c == prev || Before(h, head, c, prev) then Before(h, head, c, n)
              else Before(h, head, prev, c) && Before(h, head, n, c)
    {
      if c != prev && !Before(h, head, c, prev) {
        assert Before(h, head, prev, c);
      }
    }
  }

  /** What publishing leaves in place. */
  ghost predicate Published(h: Heap, head: Addr, prev: Addr, cur: Addr, n: Addr, h': Heap)
    reads {}
  {
    && ListOk(h, head) && IsLinked(h, prev) && n in h && n != prev && n != head && h[prev].next == Word(cur, false)
         && !IsLinked(h, n)
    && h'.Keys == h.Keys
    && (forall a {:trigger h'[a]} :: a in h && a != prev && a != n ==> h'[a] == h[a])
    && h'[prev] == h[prev].(next := Word(n, false))
    && h'[n].key == h[n].key && h'[n].next == Word(cur, false)
    && (forall a {:trigger IsLinked(h', a)} :: IsLinked(h', a) <==> IsLinked(h, a) || a == n)
    && (forall c {:trigger IsLinked(h, c)} :: IsLinked(h, c) ==>
          if c == prev || Before(h, head, c, prev) then Before(h, head, c, n)
          else Before(h, head, prev, c) && Before(h, head, n, c))
    && (cur != 0 ==> IsLinked(h, cur) && cur != head && Before(h, head, n, cur))
  }

  lemma PublishForward(h: Heap, head: Addr, prev: Addr, cur: Addr, n: Addr, h': Heap)
    requires Published(h, head, prev, cur, n, h')
    ensures LinksForward(h', head)
  {
    forall a | IsLinked(h', a) && h'[a].next.ptr != 0
      ensures IsLinked(h', h'[a].next.ptr) && Before(h', head, a, h'[a].next.ptr)
    {
      if a != n && a != prev {
        assert IsLinked(h, a) && IsLinked(h, h[a].next.ptr);
      }
    }
  }

  lemma PublishGaps(h: Heap, head: Addr, prev: Addr, cur: Addr, n: Addr, h': Heap)
    requires Published(h, head, prev, cur, n, h')
    ensures NoGaps(h', head)
  {
    forall a, c | IsLinked(h', a) && IsLinked(h', c) && Before(h', head, a, c)
      ensures var b := h'[a].next.ptr; b != 0 && (b == c || (b in h' && Before(h', head, b, c)))
    {
      if a == n {
        assert IsLinked(h, c) && Before(h, head, prev, c);
      } else if c == n {
        assert IsLinked(h, a);
        if a != prev {
          assert Before(h, head, a, prev);
          assert IsLinked(h, h[a].next.ptr);
        }
      } else {
        assert IsLinked(h, a) && IsLinked(h, c) && Before(h, head, a, c);
      }
    }
  }

  lemma PublishKeys(h: Heap, head: Addr, prev: Addr, cur: Addr, n: Addr, h': Heap)
    requires Published(h, head, prev, cur, n, h')
    ensures KeysDiffer(h', head)
  {
    forall a, c | IsLinked(h', a) && IsLinked(h', c) && a != c
      ensures Before(h', head, a, c) || Before(h', head, c, a)
    {
      if a == n {
        assert IsLinked(h, c);
      } else if c == n {
        assert IsLinked(h, a);
      } else {
        assert IsLinked(h, a) && IsLinked(h, c);
      }
    }
  }
}
