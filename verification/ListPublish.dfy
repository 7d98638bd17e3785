/** insert's publishing CAS and what it still owes afterwards. */
module ListPublish {
  import opened Words
  import H = HazardPointers
  import opened ListMap
  import opened ListInv
  import opened ListFrame
  import opened ListQuiet
  import opened ListFind
  import opened ListHeap
  import opened ListChange

  function PublishedNode(n: Node, t: Tid): Node
    reads {}
  {
    n.(stage := Linked, inserter := if n.height > 1 then Some(t) else None)
  }

  function PublishedHeap(h: Heap, prev: Addr, n: Addr, t: Tid): Heap
    requires prev in h && n in h
    reads {}
  {
    var h1 := h[n := PublishedNode(h[n], t)];
    h1[prev := h1[prev].(next := Word(n, false))]
  }

  /** What LinkCas knows about its window. */
  lemma LinkCasFacts(h: Heap, head: Addr, recs: seq<H.Record>, rec: H.Record, t: Tid, l: Local)
    requires LocOk(h, head, recs, rec, t, l) && l.at.LinkCas? && NodesOk(h, head)
    ensures var prev, cur, n := l.at.prev, l.at.cur, l.node;
            && prev in h && n in h && n != prev && n != head && n != 0 && !h[prev].stage.Private? && h[n].stage.Private?
            && h[n].inserter == Some(t) && NodeOk(h[n]) && h[n].next == Word(cur, false) && l.op.Insert?
            && h[n].key == l.op.key && h[n].value == l.op.value && h[n].height == l.op.height
            && (prev == head || h[prev].key < h[n].key)
            && (cur != 0 ==> cur in h && h[n].key < h[cur].key)
  {
  }

  lemma PublishNodes(h: Heap, prev: Addr, n: Addr, t: Tid)
    requires prev in h && n in h && prev != n && !h[prev].stage.Private? && !h[prev].next.tag
    requires h[n].stage.Private? && h[n].inserter == Some(t) && !h[n].next.tag
    ensures NodesStep(h, PublishedHeap(h, prev, n, t), t)
  {
  }

  lemma PublishLocal(h: Heap, head: Addr, recs: seq<H.Record>, rec: H.Record, t: Tid, l: Local)
    requires LocOk(h, head, recs, rec, t, l) && l.at.LinkCas? && NodesOk(h, head)
    requires l.at.prev in h && l.node in h && l.at.prev != l.node
    ensures LocOk(PublishedHeap(h, l.at.prev, l.node, t), head, recs, rec, t, l.(at := ReadHeight))
  {
  }

  lemma PublishList(h: Heap, head: Addr, prev: Addr, cur: Addr, n: Addr, t: Tid)
    requires ListOk(h, head) && prev in h && n in h && n != prev && n != head && !h[prev].stage.Private?
    requires h[n].stage.Private? && h[n].inserter == Some(t) && NodeOk(h[n]) && h[n].next == Word(cur, false)
    requires h[prev].next == Word(cur, false)
    requires prev == head || h[prev].key < h[n].key
    requires cur != 0 ==> cur in h && h[n].key < h[cur].key
    ensures ListOk(PublishedHeap(h, prev, n, t), head)
  {
    PublishHeap(h, head, prev, cur, n, PublishedNode(h[n], t), PublishedHeap(h, prev, n, t));
  }

  lemma PublishStep(s: State, t: Tid)
    requires Turn(s, t) && s.locals[t].at.LinkCas? && s.locals[t].at.prev in s.heap && s.locals[t].node in s.heap
    requires s.heap[s.locals[t].at.prev].next == Word(s.locals[t].at.cur, false)
    ensures Inv(DoLinkCas(s, t))
  {
    hide Inv, LocOk, ListOk;
    var LinkCas(prev, cur) := s.locals[t].at;
    var s' := DoLinkCas(s, t);
    var n := s.locals[t].node;
    TurnDeep(s, t);
    LinkCasFacts(s.heap, s.head, s.smr.recs, Mine(s, t), t, s.locals[t]);
    hide H.Inv, NodesOk, RetiredArePending, HeldAllocated;
    assert s'.heap == PublishedHeap(s.heap, prev, n, t);
    PublishList(s.heap, s.head, prev, cur, n, t);
    PublishNodes(s.heap, prev, n, t);
    PublishLocal(s.heap, s.head, s.smr.recs, Mine(s, t), t, s.locals[t]);
    assert OwedAt(s.locals, s.heap, n);
    OwedStep(s, s', t, s'.locals[t], n);
    hide Owed, NodesStep;
    ChangeKeepsInv(s, s', t, s'.locals[t]);
  }

  // ---------------------------------------------------------------- the overage

  lemma PaidFacts(h: Heap, head: Addr, recs: seq<H.Record>, rec: H.Record, t: Tid, l: Local)
    requires LocOk(h, head, recs, rec, t, l) && (l.at.SubRefs? || l.at.Tower?) && NodesOk(h, head)
    ensures var n := l.node;
            && n in h && n != head && n != 0 && NodeOk(h[n]) && !h[n].stage.Private? && l.op.Insert?
            && l.at.over == h[n].height - 1
            && (l.at.over > 0 ==> h[n].inserter == Some(t)) && (l.at.SubRefs? ==> l.at.over > 0)
  {
  }

  /** Subtracting the overage never wraps, and reaches zero exactly when the unlinker already dropped its reference. */
  lemma SubRefsNode(n: Node, t: Tid)
    requires NodeOk(n) && !n.stage.Private? && n.inserter == Some(t)
    ensures var links := Sub8(n.links, n.height - 1);
            var n' := n.(links := links, inserter := None, stage := if links == 0 then Doomed(t) else n.stage);
            && links == n.links - (n.height - 1) && NodeOk(n') && NodeStep(n, n', t)
            && (links == 0 <==> n.stage.Limbo?) && !n.stage.Doomed? && !n.stage.Retired?
  {
  }

  lemma SubRefsLocal(h: Heap, head: Addr, recs: seq<H.Record>, rec: H.Record, t: Tid, l: Local, n: Node)
    requires LocOk(h, head, recs, rec, t, l) && l.at.SubRefs? && l.node in h && l.node != head
    ensures LocOk(h[l.node := n], head, recs, rec, t,
                  l.(node := 0, at := if n.stage == Doomed(t) then RetireOwn(l.node) else ClearSlot(0, 3, true, 0)))
  {
  }

  lemma SubRefsStep(s: State, t: Tid)
    requires Turn(s, t) && s.locals[t].at.SubRefs? && s.locals[t].node in s.heap
    ensures Inv(DoSubRefs(s, t))
  {
    hide Inv, LocOk;
    var s' := DoSubRefs(s, t);
    var a := s.locals[t].node;
    PaidFacts(s.heap, s.head, s.smr.recs, Mine(s, t), t, s.locals[t]);
    SubRefsNode(s.heap[a], t);
    var n := s'.heap[a];
    SubRefsLocal(s.heap, s.head, s.smr.recs, Mine(s, t), t, s.locals[t], n);
    KeepPlace(s.heap, s.head, a, n, s'.heap);
    TurnOwed(s, t);
    assert OwedAt(s.locals, s.heap, a);
    hide ListOk, Owed, NodeOk;
    ChangeOneKeepsInv(s, s', t, s'.locals[t], a, n);
  }

  // ---------------------------------------------------------------- nodes that need no more from insert

  /** With no overage nobody waits for this thread's node. */
  lemma FinishOwed(s: State, s': State, t: Tid, at: Loc)
    requires Owed(s) && t in s.locals && !OwesNode(s.locals[t].at) && 0 !in s.heap
    requires s'.heap == s.heap && s'.locals == s.locals[t := s.locals[t].(node := 0, at := at)]
    requires s.locals[t].node in s.heap && s.heap[s.locals[t].node].inserter.None?
    ensures Owed(s')
  {
    forall a | a in s'.heap ensures OwedAt(s'.locals, s'.heap, a) {
      assert OwedAt(s.locals, s.heap, a);
    }
  }

  lemma ClearLocal(h: Heap, head: Addr, recs: seq<H.Record>, rec: H.Record, t: Tid, l: Local)
    requires l.at == ClearSlot(0, 3, true, 0) && l.node == 0 && l.op.Insert?
    ensures LocOk(h, head, recs, rec, t, l)
  {
  }

  lemma TowerDoneStep(s: State, t: Tid, top: nat)
    requires Turn(s, t) && s.locals[t].at.Tower? && s.locals[t].at.over == 0 && top <= |s.tower|
    ensures Inv(DoTower(s, t, top))
  {
    hide Inv, LocOk, ListOk;
    var s' := DoTower(s, t, top);
    var s1 := if top > 0 then SetHazard(s, t, 1, s.tower[top - 1]) else s;
    TurnDeep(s, t);
    PaidFacts(s.heap, s.head, s.smr.recs, Mine(s, t), t, s.locals[t]);
    if top > 0 {
      HazardSet(s, t, 1, s.tower[top - 1]);
    } else {
      SlotsOnlySame(s, t);
    }
    FinishOwed(s, s', t, ClearSlot(0, 3, true, 0));
    ClearLocal(s'.heap, s'.head, s'.smr.recs, Mine(s1, t), t, s'.locals[t]);
    hide H.Inv, Owed, SlotsOnly;
    SameHeapKeepsInv(s, s', t, s'.locals[t]);
  }

  lemma TurnDeep(s: State, t: Tid)
    requires Turn(s, t)
    ensures H.Inv(s.smr) && s.smr.k == 4 && NodesOk(s.heap, s.head) && Owed(s) && 0 !in s.heap && HeldAllocated(s)
    ensures RetiredArePending(s)
    ensures H.RecOf(s.smr.pcs[t]) == Some(s.smr.pcs[t].r) && !s.smr.pcs[t].Leave?
  {
  }
}
