/** Handing nodes to the reclaimer, freeing them, and starting operations. */
module ListRetire {
  import opened Words
  import H = HazardPointers
  import HS = HazardSafety
  import opened ListMap
  import opened ListInv
  import opened ListFrame
  import opened ListQuiet
  import opened ListFind
  import opened ListHeap
  import opened ListChange
  import opened ListPublish

  // ---------------------------------------------------------------- retireNode

  lemma RetiredNode(n: Node, t: Tid)
    requires NodeOk(n) && n.stage == Doomed(t)
    ensures NodeOk(n.(stage := Retired)) && NodeStep(n, n.(stage := Retired), t) && n.inserter.None?
  {
  }

  lemma RetirePending(s: State, s': State, cur: Addr)
    requires RetiredArePending(s) && cur in s.heap && s'.heap == s.heap[cur := s.heap[cur].(stage := Retired)]
    requires H.Pending(s'.smr.recs) == H.Pending(s.smr.recs) + multiset{cur}
    ensures RetiredArePending(s')
  {
    forall a ensures a in H.Pending(s'.smr.recs) <==> a in s'.heap && s'.heap[a].stage.Retired? {
      assert a in H.Pending(s.smr.recs) <==> a in s.heap && s.heap[a].stage.Retired?;
    }
  }

  /** h' is h1 after retireNode: same slots, one longer list, the caller inside shouldScan. */
  ghost predicate RetireSmr(s: State, h1: H.Smr, h': H.Smr, t: Tid, r: nat)
    reads {}
  {
    && SlotsOnly(s, h1, t) && |h'.recs| == |h1.recs| && h'.pcs == h1.pcs[t := H.Check(r, H.Client)] && h'.k == h1.k
    && (forall q {:trigger h'.recs[q]} :: 0 <= q < |h'.recs| ==>
         h'.recs[q].slots == h1.recs[q].slots && h'.recs[q].safe == h1.recs[q].safe)
  }

  lemma RetireInterf(s: State, h1: H.Smr, s': State, t: Tid, r: nat, cur: Addr, l: Local)
    requires t in s.locals && t in s.smr.pcs && RetireSmr(s, h1, s'.smr, t, r) && s'.head == s.head
    requires s'.tower == s.tower && s'.locals == s.locals[t := l]
    requires cur in s.heap && s'.heap == s.heap[cur := s.heap[cur].(stage := Retired)]
    requires NodeStep(s.heap[cur], s'.heap[cur], t)
    ensures Interf(s, s', t)
  {
    forall q, k | 0 <= q < |s'.smr.recs| && k in s'.smr.recs[q].safe && k < |s'.smr.recs[q].slots|
      ensures var a := s'.smr.recs[q].slots[k].ptr;
              Holds(s.smr.recs[q], a) || (a in s.heap && (!s.heap[a].stage.Private? || s.heap[a].inserter == Some(t)))
    {
      assert k in h1.recs[q].safe;
    }
  }

  lemma RetireHeld(s: State, h1: H.Smr, s': State, t: Tid, r: nat, cur: Addr)
    requires HeldAllocated(s) && t in s.smr.pcs && RetireSmr(s, h1, s'.smr, t, r) && H.RecOf(s.smr.pcs[t]) == Some(r)
    requires cur in s.heap && s'.heap == s.heap[cur := s.heap[cur].(stage := Retired)]
    ensures HeldAllocated(s')
  {
    forall q, k | 0 <= q < |s'.smr.recs| && k in s'.smr.recs[q].safe && k < |s'.smr.recs[q].slots|
      ensures var a := s'.smr.recs[q].slots[k].ptr;
              a in s'.heap && (s'.heap[a].stage.Private? ==> InsertedBy(s', a, q))
    {
      assert k in h1.recs[q].safe;
      var a := h1.recs[q].slots[k].ptr;
      if Holds(s.smr.recs[q], a) {
        var j :| j in s.smr.recs[q].safe && H.Protects(s.smr.recs[q], j, a);
      }
    }
  }

  /** The reclaimer and the list after cur, which was on no retire list, is put on t's. */
  lemma RetireParts(s: State, h1: H.Smr, s': State, t: Tid, r: nat, cur: Addr)
    requires H.Inv(h1) && SlotsOnly(s, h1, t) && t in s.smr.pcs && s.smr.pcs[t] == H.Ready(r) && r < |h1.recs|
    requires s.smr.k == 4
    requires cur in s.heap && cur != s.head && cur != 0 && s.heap[cur].stage == Doomed(t)
    requires s'.smr == H.RetireNode(h1, t, r, cur) && s'.head == s.head && s'.tower == s.tower
    requires s'.heap == s.heap[cur := s.heap[cur].(stage := Retired)]
    requires ListOk(s.heap, s.head) && RetiredArePending(s) && HeldAllocated(s)
    ensures H.Inv(s'.smr) && s'.smr.k == 4 && RetireSmr(s, h1, s'.smr, t, r)
    ensures ListOk(s'.heap, s'.head) && RetiredArePending(s') && HeldAllocated(s')
    ensures NodeStep(s.heap[cur], s'.heap[cur], t) && s'.heap[cur].inserter.None?
  {
    hide H.Inv, LinksForward, NoGaps, KeysDiffer, HeldAllocated;
    RetiredNode(s.heap[cur], t);
    PendingByLists(s.smr.recs, h1.recs);
    HS.RetireNodeKeepsInv(h1, t, r, cur);
    RetirePending(s, s', cur);
    RetireHeld(s, h1, s', t, r, cur);
    KeepPlace(s.heap, s.head, cur, s'.heap[cur], s'.heap);
  }

  lemma RetireKeepsInv(s: State, h1: H.Smr, s': State, t: Tid, r: nat, cur: Addr, l: Local)
    requires Inv(s) && t in s.locals && s.smr.pcs[t] == H.Ready(r)
    requires H.Inv(h1) && SlotsOnly(s, h1, t) && r < |h1.recs|
    requires OwesNode(s.locals[t].at) && s.locals[t].at.cur == cur
    requires cur in s.heap && cur != s.head && cur != 0 && s.heap[cur].stage == Doomed(t)
    requires s'.smr == H.RetireNode(h1, t, r, cur) && s'.head == s.head && s'.tower == s.tower
    requires s'.locals == s.locals[t := l]
    requires s'.heap == s.heap[cur := s.heap[cur].(stage := Retired)]
    requires l.node == s.locals[t].node && OpOk(l.op) && !Between(l.at)
    requires LocOk(s'.heap, s'.head, s'.smr.recs, s'.smr.recs[r], t, l)
    ensures Inv(s')
  {
    hide LocOk, H.Inv, ListOk, RetiredArePending, HeldAllocated, SlotsOnly;
    RetireParts(s, h1, s', t, r, cur);
    RetireInterf(s, h1, s', t, r, cur, l);
    OwedStep(s, s', t, l, cur);
    hide Owed, Interf;
    StepKeepsInv(s, s', t);
  }

  lemma RetireDeadFacts(h: Heap, head: Addr, recs: seq<H.Record>, rec: H.Record, t: Tid, l: Local)
    requires LocOk(h, head, recs, rec, t, l) && (l.at.RetireDead? || l.at.RetireOwn?) && NodesOk(h, head)
    ensures var cur := l.at.cur; cur in h && cur != head && cur != 0 && h[cur].stage == Doomed(t)
  {
  }

  lemma RetireDeadLocal(h: Heap, head: Addr, recs: seq<H.Record>, recs': seq<H.Record>, rec: H.Record, rec': H.Record,
      t: Tid, l: Local)
    requires LocOk(h, head, recs, rec, t, l) && l.at.RetireDead? && |rec.slots| == 4 && NodesOk(h, head)
    requires rec'.slots == rec.slots[1 := NULL] && rec'.safe >= rec.safe - {1}
    requires l.at.cur in h
    ensures LocOk(h[l.at.cur := h[l.at.cur].(stage := Retired)], head, recs', rec', t,
              l.(at := Found(l.at.prev, 0, false)))
  {
  }

  lemma RetireDeadStep(s: State, t: Tid)
    requires Turn(s, t) && s.locals[t].at.RetireDead? && s.locals[t].at.cur in s.heap
    ensures Inv(DoRetireDead(s, t))
  {
    hide Inv, LocOk, ListOk;
    var RetireDead(prev, cur) := s.locals[t].at;
    var r := s.smr.pcs[t].r;
    var s' := DoRetireDead(s, t);
    var s1 := SetHazard(s, t, 1, NULL);
    TurnDeep(s, t);
    RetireDeadFacts(s.heap, s.head, s.smr.recs, Mine(s, t), t, s.locals[t]);
    HazardSet(s, t, 1, NULL);
    RetireDeadLocal(s.heap, s.head, s.smr.recs, s'.smr.recs, Mine(s, t), s'.smr.recs[r], t, s.locals[t]);
    hide H.Inv, SlotsOnly;
    RetireKeepsInv(s, s1.smr, s', t, r, cur, s'.locals[t]);
  }

  lemma RetireOwnLocal(h: Heap, head: Addr, recs: seq<H.Record>, rec: H.Record, t: Tid, l: Local)
    requires LocOk(h, head, recs, rec, t, l) && l.at.RetireOwn?
    ensures l.node == 0 && l.op.Insert?
  {
  }

  lemma RetireOwnStep(s: State, t: Tid)
    requires Turn(s, t) && s.locals[t].at.RetireOwn? && s.locals[t].at.cur in s.heap
    ensures Inv(DoRetireOwn(s, t))
  {
    hide Inv, LocOk, ListOk;
    var cur := s.locals[t].at.cur;
    var r := s.smr.pcs[t].r;
    var s' := DoRetireOwn(s, t);
    TurnDeep(s, t);
    RetireDeadFacts(s.heap, s.head, s.smr.recs, Mine(s, t), t, s.locals[t]);
    SlotsOnlySame(s, t);
    RetireOwnLocal(s.heap, s.head, s.smr.recs, Mine(s, t), t, s.locals[t]);
    ClearLocal(s'.heap, s'.head, s'.smr.recs, s'.smr.recs[r], t, s'.locals[t]);
    hide H.Inv, SlotsOnly;
    RetireKeepsInv(s, s.smr, s', t, r, cur, s'.locals[t]);
  }

  // ---------------------------------------------------------------- freeNode of an unpublished node

  lemma FreeOwnFacts(h: Heap, head: Addr, recs: seq<H.Record>, rec: H.Record, t: Tid, l: Local)
    requires LocOk(h, head, recs, rec, t, l) && l.at.FreeOwn?
    ensures l.node != 0 && MineOk(h, head, t, l) && Unheld(recs, l.node)
  {
  }

  lemma FreeOwnHeld(s: State, s': State, a: Addr)
    requires HeldAllocated(s) && H.Slots(s.smr) && H.SafeNames(s.smr) && s'.smr == s.smr && s'.heap == s.heap - {a}
    requires Unheld(s.smr.recs, a)
    ensures HeldAllocated(s')
  {
    forall q, k | 0 <= q < |s'.smr.recs| && k in s'.smr.recs[q].safe && k < |s'.smr.recs[q].slots|
      ensures var b := s'.smr.recs[q].slots[k].ptr;
              b in s'.heap && (s'.heap[b].stage.Private? ==> InsertedBy(s', b, q))
    {
      assert !H.Protects(s.smr.recs[q], k, a);
    }
  }

  lemma FreeOwnOwed(s: State, s': State, t: Tid, l: Local)
    requires Owed(s) && t in s.locals && s'.locals == s.locals[t := l] && s'.heap == s.heap - {s.locals[t].node}
    requires !OwesNode(s.locals[t].at)
    ensures Owed(s')
  {
    forall a | a in s'.heap ensures OwedAt(s'.locals, s'.heap, a) {
      assert OwedAt(s.locals, s.heap, a);
    }
  }

  lemma FreeOwnInterf(s: State, s': State, t: Tid, l: Local)
    requires t in s.locals && s'.smr == s.smr && s'.head == s.head && s'.tower == s.tower
    requires s'.locals == s.locals[t := l]
    requires var a := s.locals[t].node;
             a in s.heap && s.heap[a].stage.Private? && s.heap[a].inserter == Some(t) && s'.heap == s.heap - {a}
    requires H.Inv(s.smr)
    ensures Interf(s, s', t)
  {
    SlotsOnlySame(s, t);
  }

  lemma FreeOwnStep(s: State, t: Tid)
    requires Turn(s, t) && s.locals[t].at.FreeOwn?
    ensures Inv(DoFreeOwn(s, t))
  {
    hide Inv, LocOk, ListOk;
    var s' := DoFreeOwn(s, t);
    var a := s.locals[t].node;
    TurnDeep(s, t);
    FreeOwnFacts(s.heap, s.head, s.smr.recs, Mine(s, t), t, s.locals[t]);
    RemoveHeap(s.heap, s.head, a, s'.heap);
    FreeOwnHeld(s, s', a);
    FreeOwnOwed(s, s', t, s'.locals[t]);
    FreeOwnInterf(s, s', t, s'.locals[t]);
    assert RetiredArePending(s');
    hide H.Inv, Owed, HeldAllocated, RetiredArePending, Interf;
    StepKeepsInv(s, s', t);
  }

  // ---------------------------------------------------------------- a new operation

  lemma InvokeStep(s: State, t: Tid, op: Op)
    requires Turn(s, t) && Between(s.locals[t].at) && OpOk(op)
    ensures Inv(Invoke(s, t, op))
  {
    var s' := Invoke(s, t, op);
    assert s.locals[t].node == 0 by {
      assert LocalOk(s, t);
    }
    InvokeLocal(s'.heap, s'.head, s'.smr.recs, Mine(s, t), t, s'.locals[t]);
    SlotsOnlySame(s, t);
    QuietOwed(s, s', t, s'.locals[t]);
    hide H.Inv, LocOk, ListOk, SlotsOnly, Owed;
    SameHeapKeepsInv(s, s', t, s'.locals[t]);
  }

  lemma InvokeLocal(h: Heap, head: Addr, recs: seq<H.Record>, rec: H.Record, t: Tid, l: Local)
    requires l.node == 0 && l.at == if l.op.First? then FirstLoad else FindStart
    ensures LocOk(h, head, recs, rec, t, l)
  {
  }
}
