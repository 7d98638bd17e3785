/** The steps that change a node, the steps of the reclaimer, and the first step of an operation. */
module ListChange {
  import opened Words
  import H = HazardPointers
  import HS = HazardSafety
  import opened ListMap
  import opened ListInv
  import opened ListFrame
  import opened ListQuiet
  import opened ListFind
  import opened ListHeap

  /** What a heap step may do to the nodes, apart from the list itself. */
  ghost predicate NodesStep(h: Heap, h': Heap, t: Tid)
    reads {}
  {
    && h.Keys <= h'.Keys
    && (forall a {:trigger h'[a]} :: a in h ==>
          && NodeStep(h[a], h'[a], t) && (h'[a].stage.Retired? <==> h[a].stage.Retired?)
          && (h'[a].stage.Private? ==> h'[a].inserter == h[a].inserter))
    && (forall a {:trigger h'[a]} :: a in h' && a !in h ==> h'[a].stage.Private?)
  }

  lemma ChangeHeld(s: State, s': State, t: Tid)
    requires HeldAllocated(s) && s'.smr == s.smr && NodesStep(s.heap, s'.heap, t)
    ensures HeldAllocated(s')
  {
    forall q, k | 0 <= q < |s'.smr.recs| && k in s'.smr.recs[q].safe && k < |s'.smr.recs[q].slots|
      ensures var a := s'.smr.recs[q].slots[k].ptr;
              a in s'.heap && (s'.heap[a].stage.Private? ==> InsertedBy(s', a, q))
    {
      var a := s.smr.recs[q].slots[k].ptr;
      assert a in s.heap;
      assert NodeStep(s.heap[a], s'.heap[a], t);
    }
  }

  lemma ChangeInterf(s: State, s': State, t: Tid, l: Local)
    requires t in s.locals && s'.smr == s.smr && s'.head == s.head && s'.tower == s.tower
    requires s'.locals == s.locals[t := l]
    requires NodesStep(s.heap, s'.heap, t) && H.Slots(s.smr) && H.SafeNames(s.smr)
    ensures Interf(s, s', t)
  {
    forall q, k | 0 <= q < |s'.smr.recs| && k in s'.smr.recs[q].safe && k < |s'.smr.recs[q].slots|
      ensures Holds(s.smr.recs[q], s'.smr.recs[q].slots[k].ptr)
    {
      assert H.Protects(s.smr.recs[q], k, s.smr.recs[q].slots[k].ptr);
    }
  }

  lemma ChangePending(s: State, s': State, t: Tid)
    requires RetiredArePending(s) && s'.smr == s.smr && NodesStep(s.heap, s'.heap, t)
    ensures RetiredArePending(s')
  {
    forall a ensures a in H.Pending(s'.smr.recs) <==> a in s'.heap && s'.heap[a].stage.Retired? {
      assert a in s.heap ==> (s'.heap[a].stage.Retired? <==> s.heap[a].stage.Retired?);
    }
  }

  /** A step of t on the heap alone. */
  lemma ChangeKeepsInv(s: State, s': State, t: Tid, l: Local)
    requires Inv(s) && t in s.locals && s'.smr == s.smr && s'.head == s.head && s'.tower == s.tower
    requires s'.locals == s.locals[t := l]
    requires NodesStep(s.heap, s'.heap, t)
    requires ListOk(s'.heap, s'.head) && Owed(s')
    requires t in s'.locals && t in s'.smr.pcs && LocalOk(s', t)
    ensures Inv(s')
  {
    ChangeHeld(s, s', t);
    ChangeInterf(s, s', t, l);
    ChangePending(s, s', t);
    StepKeepsInv(s, s', t);
  }

  /** Work owed on the nodes that a step of t does not change is owed as before. */
  lemma OwedStep(s: State, s': State, t: Tid, l: Local, c: Addr)
    requires Owed(s) && t in s.locals && s'.locals == s.locals[t := l] && c in s'.heap
    requires forall a {:trigger s'.heap[a]} :: a in s'.heap && a != c ==>
               a in s.heap && s'.heap[a].stage == s.heap[a].stage && s'.heap[a].inserter == s.heap[a].inserter
    requires OwesNode(s.locals[t].at) ==> s.locals[t].at.cur == c
    requires l.node == s.locals[t].node || s.locals[t].node == c || (s.locals[t].node == 0 && 0 !in s.heap)
    requires OwedAt(s'.locals, s'.heap, c)
    ensures Owed(s')
  {
    forall a | a in s'.heap ensures OwedAt(s'.locals, s'.heap, a) {
      if a != c {
        assert OwedAt(s.locals, s.heap, a);
      }
    }
  }

  // ---------------------------------------------------------------- unlinking and reference counts

  function UnlinkedHeap(h: Heap, prev: Addr, cur: Addr, w: Word, t: Tid): Heap
    requires prev in h && cur in h
    reads {}
  {
    var h1 := h[prev := h[prev].(next := Clear(w))];
    h1[cur := h1[cur].(stage := Unlinking(t))]
  }

  lemma UnlinkNodes(h: Heap, prev: Addr, cur: Addr, w: Word, t: Tid)
    requires IsLinked(h, prev) && IsLinked(h, cur) && prev != cur && !h[prev].next.tag
    ensures NodesStep(h, UnlinkedHeap(h, prev, cur, w, t), t)
  {
  }

  /** What UnlinkCas knows about its two nodes. */
  lemma UnlinkFacts(h: Heap, head: Addr, recs: seq<H.Record>, rec: H.Record, t: Tid, l: Local)
    requires LocOk(h, head, recs, rec, t, l) && l.at.UnlinkCas?
    ensures l.at.prev in h && l.at.cur in h && l.at.prev != l.at.cur && l.at.cur != head
    ensures !h[l.at.prev].stage.Private? && h[l.at.cur].next.tag && h[l.at.cur].next == l.at.link
  {
  }

  lemma UnlinkLocal(h: Heap, head: Addr, recs: seq<H.Record>, rec: H.Record, t: Tid, l: Local)
    requires LocOk(h, head, recs, rec, t, l) && l.at.UnlinkCas? && l.at.prev in h && l.at.cur in h
    requires IsLinked(h, l.at.prev) && IsLinked(h, l.at.cur)
    ensures LocOk(UnlinkedHeap(h, l.at.prev, l.at.cur, l.at.link, t), head, recs, rec, t,
              l.(at := DropRef(l.at.prev, l.at.cur)))
  {
  }

  lemma UnlinkStep(s: State, t: Tid)
    requires Turn(s, t) && s.locals[t].at.UnlinkCas? && s.locals[t].at.prev in s.heap && s.locals[t].at.cur in s.heap
    requires s.heap[s.locals[t].at.prev].next == Word(s.locals[t].at.cur, false) && Owed(s)
    ensures Inv(DoUnlinkCas(s, t))
  {
    hide Inv, ListOk, LocOk;
    var UnlinkCas(prev, cur, w) := s.locals[t].at;
    var s' := DoUnlinkCas(s, t);
    var l := s.locals[t].(at := DropRef(prev, cur));
    assert s'.heap == UnlinkedHeap(s.heap, prev, cur, w, t);
    UnlinkFacts(s.heap, s.head, s.smr.recs, Mine(s, t), t, s.locals[t]);
    UnlinkHeap(s.heap, s.head, prev, cur, t, s'.heap);
    UnlinkNodes(s.heap, prev, cur, w, t);
    UnlinkLocal(s.heap, s.head, s.smr.recs, Mine(s, t), t, s.locals[t]);
    OwedStep(s, s', t, l, cur);
    hide NodesStep, Owed;
    ChangeKeepsInv(s, s', t, l);
  }

  // ---------------------------------------------------------------- steps that change one node

  lemma OneNodeStep(h: Heap, c: Addr, n: Node, t: Tid)
    requires if c in h then
               && NodeStep(h[c], n, t) && (n.stage.Retired? <==> h[c].stage.Retired?)
               && (n.stage.Private? ==> n.inserter == h[c].inserter)
             else n.stage.Private?
    ensures NodesStep(h, h[c := n], t)
  {
  }

  lemma ChangeOneKeepsInv(s: State, s': State, t: Tid, l: Local, c: Addr, n: Node)
    requires Turn(s, t) && !Between(s.locals[t].at) && OpOk(l.op)
    requires s'.smr == s.smr && s'.head == s.head && s'.tower == s.tower && s'.locals == s.locals[t := l]
    requires s'.heap == s.heap[c := n]
    requires if c in s.heap then
               && NodeStep(s.heap[c], n, t) && (n.stage.Retired? <==> s.heap[c].stage.Retired?)
               && (n.stage.Private? ==> n.inserter == s.heap[c].inserter)
             else n.stage.Private?
    requires ListOk(s'.heap, s'.head)
    requires OwesNode(s.locals[t].at) ==> s.locals[t].at.cur == c
    requires l.node == s.locals[t].node || s.locals[t].node == c || s.locals[t].node == 0
    requires OwedAt(s'.locals, s'.heap, c)
    requires !Between(l.at) && LocOk(s'.heap, s'.head, s.smr.recs, Mine(s, t), t, l)
    ensures Inv(s')
  {
    hide LocOk, ListOk;
    TurnOwed(s, t);
    OneNodeStep(s.heap, c, n, t);
    OwedStep(s, s', t, l, c);
    hide Inv, NodesStep, Owed;
    ChangeKeepsInv(s, s', t, l);
  }

  lemma TurnOwed(s: State, t: Tid)
    requires Turn(s, t)
    ensures Owed(s) && 0 !in s.heap && HeldAllocated(s) && s.smr.k == 4
  {
  }

  lemma DropRefFacts(h: Heap, head: Addr, recs: seq<H.Record>, rec: H.Record, t: Tid, l: Local)
    requires LocOk(h, head, recs, rec, t, l) && l.at.DropRef? && NodesOk(h, head)
    ensures var cur := l.at.cur;
            && cur in h && cur != head && cur != 0 && h[cur].stage == Unlinking(t)
            && NodeOk(h[cur]) && cur != l.node
  {
  }

  /** --link_count never wraps, and whoever reaches zero is the one to retire the node. */
  lemma DropRefNode(n: Node, t: Tid)
    requires NodeOk(n) && n.stage == Unlinking(t)
    ensures var links := Sub8(n.links, 1);
            var n' := n.(links := links, stage := if links == 0 then Doomed(t) else Limbo);
            links == n.links - 1 && NodeOk(n') && NodeStep(n, n', t) && (links == 0 <==> n.inserter.None?)
  {
  }

  lemma DropRefLocal(h: Heap, head: Addr, recs: seq<H.Record>, rec: H.Record, t: Tid, l: Local, n: Node)
    requires LocOk(h, head, recs, rec, t, l) && l.at.DropRef? && NodesOk(h, head)
    requires NodeStep(h[l.at.cur], n, t) && (n.stage == Doomed(t) || n.stage == Limbo)
    ensures LocOk(h[l.at.cur := n], head, recs, rec, t,
                  l.(at := if n.stage == Doomed(t) then RetireDead(l.at.prev, l.at.cur)
                           else Found(l.at.prev, 0, false)))
  {
  }

  /** Whoever takes the last reference goes on to retire the node; anyone else leaves find without a match. */
  lemma DropRefStep(s: State, t: Tid)
    requires Turn(s, t) && s.locals[t].at.DropRef? && s.locals[t].at.cur in s.heap
    ensures Inv(DoDropRef(s, t))
    ensures var prev, cur, s' := s.locals[t].at.prev, s.locals[t].at.cur, DoDropRef(s, t);
            && s'.heap[cur].links == s.heap[cur].links - 1
            && (s'.heap[cur].links == 0 <==> s.heap[cur].inserter.None?)
            && s'.locals[t].at == if s'.heap[cur].links == 0 then RetireDead(prev, cur) else Found(prev, 0, false)
  {
    hide Inv, LocOk;
    var DropRef(prev, cur) := s.locals[t].at;
    var l := s.locals[t];
    DropRefFacts(s.heap, s.head, s.smr.recs, Mine(s, t), t, l);
    DropRefNode(s.heap[cur], t);
    var links := Sub8(s.heap[cur].links, 1);
    var n := s.heap[cur].(links := links, stage := if links == 0 then Doomed(t) else Limbo);
    DropRefLocal(s.heap, s.head, s.smr.recs, Mine(s, t), t, l, n);
    KeepPlace(s.heap, s.head, cur, n, s.heap[cur := n]);
    TurnOwed(s, t);
    assert OwedAt(s.locals, s.heap, cur);
    hide ListOk, Owed, NodeOk;
    ChangeOneKeepsInv(s, DoDropRef(s, t), t,
        l.(at := if links == 0 then RetireDead(prev, cur) else Found(prev, 0, false)), cur, n);
  }

  // ---------------------------------------------------------------- erase's mark

  lemma MarkFacts(h: Heap, head: Addr, recs: seq<H.Record>, rec: H.Record, t: Tid, l: Local)
    requires LocOk(h, head, recs, rec, t, l) && l.at.MarkCas?
    ensures var cur := l.at.cur;
            && cur in h && cur != head && cur != 0 && !h[cur].stage.Private? && l.node == 0
            && l.op.Erase? && h[cur].key == l.op.key
  {
  }

  lemma MarkLocal(h: Heap, head: Addr, recs: seq<H.Record>, rec: H.Record, t: Tid, l: Local)
    requires l.at.FindStart? && l.op.Erase? && l.node == 0
    ensures LocOk(h, head, recs, rec, t, l)
  {
  }

  lemma MarkStep(s: State, t: Tid)
    requires Turn(s, t) && s.locals[t].at.MarkCas? && s.locals[t].at.cur in s.heap
    requires s.heap[s.locals[t].at.cur].next == s.locals[t].at.link
    ensures Inv(DoMarkCas(s, t))
  {
    hide Inv, LocOk;
    var MarkCas(cur, w) := s.locals[t].at;
    var s' := DoMarkCas(s, t);
    MarkFacts(s.heap, s.head, s.smr.recs, Mine(s, t), t, s.locals[t]);
    MarkHeap(s.heap, s.head, cur, s'.heap);
    MarkLocal(s'.heap, s'.head, s.smr.recs, Mine(s, t), t, s'.locals[t]);
    TurnOwed(s, t);
    assert OwedAt(s.locals, s.heap, cur);
    hide ListOk, Owed;
    ChangeOneKeepsInv(s, s', t, s'.locals[t], cur, s.heap[cur].(next := Mark(w)));
  }

  // ---------------------------------------------------------------- insert's node

  lemma NewNodeFacts(h: Heap, head: Addr, recs: seq<H.Record>, rec: H.Record, t: Tid, l: Local)
    requires LocOk(h, head, recs, rec, t, l) && l.at.NewNode?
    ensures l.op.Insert? && l.node == 0
  {
  }

  lemma NewNodeLocal(h: Heap, head: Addr, recs: seq<H.Record>, rec: H.Record, t: Tid, l: Local, a: Addr, n: Node)
    requires LocOk(h, head, recs, rec, t, l) && l.at.NewNode? && a != 0 && a !in h && a != head && Unheld(recs, a)
    requires l.op.Insert? && n == Node(l.op.key, l.op.value, l.op.height, l.op.height, NULL, Private, Some(t))
    ensures LocOk(h[a := n], head, recs, rec, t, l.(node := a, at := Protect(l.at.prev, l.at.cur)))
  {
  }

  lemma FreshUnheld(s: State, a: Addr)
    requires HeldAllocated(s) && a !in s.heap
    ensures Unheld(s.smr.recs, a)
  {
    forall q, k: nat | 0 <= q < |s.smr.recs| ensures !H.Protects(s.smr.recs[q], k, a) {
      assert k in s.smr.recs[q].safe && k < |s.smr.recs[q].slots| ==> s.smr.recs[q].slots[k].ptr in s.heap;
    }
  }

  lemma NewNodeStep(s: State, t: Tid, a: Addr)
    requires Turn(s, t) && s.locals[t].at.NewNode? && s.locals[t].op.Insert? && a != 0 && a !in s.heap
    ensures Inv(DoNewNode(s, t, a))
  {
    hide Inv, LocOk;
    var s' := DoNewNode(s, t, a);
    var n := s'.heap[a];
    HeadLinked(s.heap, s.head);
    NewNodeFacts(s.heap, s.head, s.smr.recs, Mine(s, t), t, s.locals[t]);
    TurnOwed(s, t);
    FreshUnheld(s, a);
    NewNodeLocal(s.heap, s.head, s.smr.recs, Mine(s, t), t, s.locals[t], a, n);
    KeepPlace(s.heap, s.head, a, n, s'.heap);
    hide ListOk, Owed;
    ChangeOneKeepsInv(s, s', t, s'.locals[t], a, n);
  }

  lemma LinkStoreFacts(h: Heap, head: Addr, recs: seq<H.Record>, rec: H.Record, t: Tid, l: Local)
    requires LocOk(h, head, recs, rec, t, l) && (l.at.LinkStore? || l.at.LinkCas?)
    ensures l.node != 0 && MineOk(h, head, t, l)
  {
  }

  lemma LinkStoreLocal(h: Heap, head: Addr, recs: seq<H.Record>, rec: H.Record, t: Tid, l: Local)
    requires LocOk(h, head, recs, rec, t, l) && l.at.LinkStore? && l.node in h
    ensures LocOk(h[l.node := h[l.node].(next := Word(l.at.cur, false))], head, recs, rec, t,
              l.(at := LinkCas(l.at.prev, l.at.cur)))
  {
  }

  lemma LinkStoreStep(s: State, t: Tid)
    requires Turn(s, t) && s.locals[t].at.LinkStore? && s.locals[t].node in s.heap
    ensures Inv(DoLinkStore(s, t))
  {
    hide Inv, LocOk;
    var LinkStore(prev, cur) := s.locals[t].at;
    var s' := DoLinkStore(s, t);
    var a := s.locals[t].node;
    var n := s.heap[a].(next := Word(cur, false));
    LinkStoreFacts(s.heap, s.head, s.smr.recs, Mine(s, t), t, s.locals[t]);
    LinkStoreLocal(s.heap, s.head, s.smr.recs, Mine(s, t), t, s.locals[t]);
    KeepPlace(s.heap, s.head, a, n, s'.heap);
    TurnOwed(s, t);
    assert OwedAt(s.locals, s.heap, a);
    hide ListOk, Owed;
    ChangeOneKeepsInv(s, s', t, s'.locals[t], a, n);
  }
}
