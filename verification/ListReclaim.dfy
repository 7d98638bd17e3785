/**
 * The steps of allocate, retire, scan and helpScan keep the list's invariant: a sweep frees only what no thread
 * needs.
 */
module ListReclaim {
  import opened Words
  import H = HazardPointers
  import HS = HazardSafety
  import opened ListMap
  import opened ListInv
  import opened ListFrame
  import opened ListQuiet
  import opened ListHeap

  /** Slots and their safety are as before, except that t may be clearing its own on the way out. */
  ghost predicate SameSlots(h: H.Smr, h': H.Smr, t: Tid)
    requires t in h.pcs
    reads {}
  {
    && |h.recs| <= |h'.recs|
    && (forall q {:trigger h'.recs[q]} :: 0 <= q < |h.recs| && (h.recs[q].owner != Some(t) || !h.pcs[t].Leave?) ==>
          h'.recs[q].slots == h.recs[q].slots && h'.recs[q].safe == h.recs[q].safe)
    && (forall q, k {:trigger k in h'.recs[q].safe} ::
         0 <= q < |h'.recs| && k in h'.recs[q].safe && k < |h'.recs[q].slots| ==>
          q < |h.recs| && k in h.recs[q].safe && k < |h.recs[q].slots| && h'.recs[q].slots[k] == h.recs[q].slots[k])
  }

  /** Which record t holds changes only while it has none, or gives up the one it has. */
  ghost predicate PcStep(h: H.Smr, h': H.Smr, t: Tid)
    requires t in h.pcs
    reads {}
  {
    && h'.k == h.k && t in h'.pcs && h'.pcs == h.pcs[t := h'.pcs[t]]
    && (H.RecOf(h.pcs[t]).Some? && !h.pcs[t].Leave? ==> H.RecOf(h'.pcs[t]) == H.RecOf(h.pcs[t]))
    && (!h.pcs[t].Ready? && !h.pcs[t].Leave? ==> !h'.pcs[t].Leave?)
  }

  function Freed(v: Option<Addr>): multiset<Addr>
    reads {}
  {
    match v case Some(a) => multiset{a} case None => multiset{}
  }

  // ---------------------------------------------------------------- the reclaimer's side

  /** The simple case: old records keep their slots, new ones hold nothing. */
  ghost predicate AllSlots(recs: seq<H.Record>, recs': seq<H.Record>)
    reads {}
  {
    && |recs| <= |recs'|
    && (forall q {:trigger recs'[q]} :: 0 <= q < |recs| ==>
         recs'[q].slots == recs[q].slots && recs'[q].safe == recs[q].safe)
    && (forall q {:trigger recs'[q]} :: |recs| <= q < |recs'| ==> recs'[q].safe == {})
  }

  lemma SlotsAllSame(h: H.Smr, h': H.Smr, t: Tid)
    requires t in h.pcs && AllSlots(h.recs, h'.recs)
    ensures SameSlots(h, h', t)
  {
  }

  lemma AllocateSmr(h: H.Smr, t: Tid)
    requires H.Inv(h) && t in h.pcs && H.RecOf(h.pcs[t]).None? && H.PcOk(h, h.pcs[t])
    ensures var h' := H.AllocateStep(h, t);
            SameSlots(h, h', t) && PcStep(h, h', t) && H.Pending(h'.recs) == H.Pending(h.recs)
  {
    hide H.Inv, SameSlots, H.Pending;
    var h' := H.AllocateStep(h, t);
    if h.pcs[t].PushCas? {
      HS.PendingAppend(h.recs, H.NewRecord(h.k, t));
    }
    if h.pcs[t].WalkCas? {
      HS.PendingSame(h.recs, h.pcs[t].at, h.recs[h.pcs[t].at].(active := true, owner := Some(t)));
    }
    SlotsAllSame(h, h', t);
  }

  /** Clearing a slot of the record t owns. */
  lemma ClearSmr(h: H.Smr, h': H.Smr, t: Tid, r: nat, k: nat)
    requires H.Inv(h) && t in h.pcs && h.pcs[t].Leave? && r < |h.recs| && h.recs[r].owner == Some(t)
    requires k < |h.recs[r].slots|
    requires h'.recs == h.recs[r := H.StoreSlot(h.recs[r], k, NULL)]
    ensures SameSlots(h, h', t)
  {
    hide H.Conserved, H.ScansSee, H.Owners;
    assert !H.HandedUp(h.recs[r], k, NULL);
  }

  lemma LeaveSmr(h: H.Smr, t: Tid)
    requires H.Inv(h) && t in h.pcs && (h.pcs[t].Ready? || h.pcs[t].Leave?) && H.PcOk(h, h.pcs[t])
    ensures var h' := H.LeaveStep(h, t);
            SameSlots(h, h', t) && PcStep(h, h', t) && H.Pending(h'.recs) == H.Pending(h.recs)
  {
    var h' := H.LeaveStep(h, t);
    if h.pcs[t].Ready? {
      hide H.Inv, SameSlots;
      SlotsAllSame(h, h', t);
    } else {
      LeavingSmr(h, h', t);
    }
  }

  lemma LeavingSmr(h: H.Smr, h': H.Smr, t: Tid)
    requires H.Inv(h) && t in h.pcs && h.pcs[t].Leave? && H.PcOk(h, h.pcs[t]) && H.Slots(h) && h' == H.LeaveStep(h, t)
    ensures SameSlots(h, h', t) && PcStep(h, h', t) && H.Pending(h'.recs) == H.Pending(h.recs)
  {
    var r, k := h.pcs[t].r, h.pcs[t].slot;
    LeaverOwns(h, t);
    hide H.Inv, SameSlots, H.Pending, H.HandedUp, H.Slots;
    HS.PendingSame(h.recs, r, h'.recs[r]);
    if k < h.k {
      ClearSmr(h, h', t, r, k);
    } else {
      SlotsAllSame(h, h', t);
    }
  }

  lemma LeaverOwns(h: H.Smr, t: Tid)
    requires H.Inv(h) && t in h.pcs && h.pcs[t].Leave? && H.PcOk(h, h.pcs[t])
    ensures h.recs[h.pcs[t].r].owner == Some(t) && |h.recs[h.pcs[t].r].slots| == h.k && H.Slots(h)
  {
    assert H.Owns(h.pcs[t], h.pcs[t].r);
  }

  lemma HelpSmr(h: H.Smr, t: Tid)
    requires t in h.pcs && H.PcOk(h, h.pcs[t])
    requires h.pcs[t].HelpHead? || h.pcs[t].Help? || h.pcs[t].Take?
    ensures var h' := H.HelpStep(h, t); SameSlots(h, h', t) && PcStep(h, h', t)
  {
    hide SameSlots;
    SlotsAllSame(h, H.HelpStep(h, t), t);
  }

  lemma ScanSmr(h: H.Smr, t: Tid)
    requires H.Slots(h) && t in h.pcs && H.Reclaiming(h.pcs[t]) && H.PcOk(h, h.pcs[t])
    ensures var h' := H.ScanStep(h, t); SameSlots(h, h', t) && PcStep(h, h', t)
    ensures H.Victim(h, t).None? ==> H.Pending(H.ScanStep(h, t).recs) == H.Pending(h.recs)
  {
    hide SameSlots, H.Pending;
    SlotsAllSame(h, H.ScanStep(h, t), t);
  }

  /** What any step of the reclaimer does, as seen from the list above it. */
  lemma SmrStepFacts(s: State, t: Tid)
    requires H.Inv(s.smr) && t in s.smr.pcs && H.PcOk(s.smr, s.smr.pcs[t])
    ensures var h' := SmrStep(s, t);
            && H.Inv(h') && SameSlots(s.smr, h', t) && PcStep(s.smr, h', t)
            && H.Pending(s.smr.recs) == H.Pending(h'.recs) + Freed(H.Victim(s.smr, t))
  {
    var pc := s.smr.pcs[t];
    assert H.Slots(s.smr);
    hide H.Inv, SameSlots, PcStep;
    if H.RecOf(pc).None? {
      AllocateSmr(s.smr, t);
      HS.AllocateKeepsInv(s.smr, t);
    } else if H.Reclaiming(pc) {
      ScanSmr(s.smr, t);
      HS.ReclaimKeepsInv(s.smr, t);
      if H.Victim(s.smr, t).Some? {
        HS.FreeKeepsInv(s.smr, t);
      }
    } else if pc.Ready? || pc.Leave? {
      LeaveSmr(s.smr, t);
      HS.LeaveKeepsInv(s.smr, t);
    } else {
      HelpSmr(s.smr, t);
      HS.HelpKeepsInv(s.smr, t);
    }
  }

  // ---------------------------------------------------------------- the list's side

  lemma VictimFacts(s: State, t: Tid)
    requires H.Inv(s.smr) && t in s.smr.pcs && H.Victim(s.smr, t).Some? && RetiredArePending(s)
    requires H.Pending(s.smr.recs) == H.Pending(SmrStep(s, t).recs) + Freed(H.Victim(s.smr, t))
    ensures var v := H.Victim(s.smr, t).value;
            && v in s.heap && s.heap[v].stage.Retired? && Unheld(s.smr.recs, v)
            && v !in H.Pending(SmrStep(s, t).recs)
  {
    var v := H.Victim(s.smr, t).value;
    assert v in H.Pending(s.smr.recs) && H.Pending(s.smr.recs)[v] <= 1;
    hide H.Inv;
    forall q, k: nat | 0 <= q < |s.smr.recs| ensures !H.Protects(s.smr.recs[q], k, v) {
      HS.VictimNotProtected(s.smr, t, q, k);
    }
  }

  /** s' is s after a step of t's reclamation code. */
  ghost predicate Reclaimed(s: State, s': State, t: Tid)
    reads {}
  {
    && t in s.smr.pcs && H.Inv(s'.smr) && SameSlots(s.smr, s'.smr, t) && PcStep(s.smr, s'.smr, t)
    && s'.head == s.head && s'.tower == s.tower && s'.locals == s.locals && s'.heap.Keys <= s.heap.Keys
    && (forall a {:trigger s'.heap[a]} :: a in s'.heap ==> s'.heap[a] == s.heap[a])
    && (forall a {:trigger a in s'.heap} :: a in s.heap && a !in s'.heap ==>
         s.heap[a].stage.Retired? && Unheld(s.smr.recs, a))
  }

  lemma SweptPending(s: State, s': State, v: Addr)
    requires RetiredArePending(s) && s'.heap == s.heap - {v} && v !in H.Pending(s'.smr.recs)
    requires H.Pending(s.smr.recs) == H.Pending(s'.smr.recs) + multiset{v}
    ensures RetiredArePending(s')
  {
    forall a ensures a in H.Pending(s'.smr.recs) <==> a in s'.heap && s'.heap[a].stage.Retired? {
      assert a != v ==> (a in H.Pending(s.smr.recs) <==> a in H.Pending(s'.smr.recs));
    }
  }

  lemma ReclaimParts(s: State, t: Tid)
    requires H.Inv(s.smr) && t in s.smr.pcs && H.PcOk(s.smr, s.smr.pcs[t]) && H.Slots(s.smr)
    requires RetiredArePending(s) && ListOk(s.heap, s.head)
    ensures var s' := DoReclaim(s, t);
            Reclaimed(s, s', t) && RetiredArePending(s') && ListOk(s'.heap, s'.head)
  {
    hide H.Inv, SameSlots, PcStep, ListOk, Unheld, SmrStep, H.Pending;
    SmrStepFacts(s, t);
    var s' := DoReclaim(s, t);
    if H.Victim(s.smr, t).Some? {
      var v := H.Victim(s.smr, t).value;
      VictimFacts(s, t);
      RemoveHeap(s.heap, s.head, v, s'.heap);
      SweptPending(s, s', v);
    }
  }

  lemma ReclaimHeld(s: State, s': State, t: Tid)
    requires Reclaimed(s, s', t) && HeldAllocated(s) && H.Slots(s.smr) && H.SafeNames(s.smr)
    requires s.smr.pcs[t].Leave? ==> forall a {:trigger s.heap[a]} :: a in s.heap ==> s.heap[a].inserter != Some(t)
    ensures HeldAllocated(s')
  {
    hide H.Inv;
    forall q, k | 0 <= q < |s'.smr.recs| && k in s'.smr.recs[q].safe && k < |s'.smr.recs[q].slots|
      ensures var a := s'.smr.recs[q].slots[k].ptr; a in s'.heap && (s'.heap[a].stage.Private? ==> InsertedBy(s', a, q))
    {
      assert k in s.smr.recs[q].safe;
      var a := s.smr.recs[q].slots[k].ptr;
      assert H.Protects(s.smr.recs[q], k, a);
      assert a in s'.heap;
    }
  }

  lemma ReclaimInterf(s: State, s': State, t: Tid, w: Tid)
    requires Reclaimed(s, s', t) && (w == t || !s.smr.pcs[t].Leave?)
    requires H.Slots(s.smr) && H.SafeNames(s.smr)
    ensures HeapStep(s, s', w) && RecsStep(s, s', w)
  {
    hide H.Inv;
    forall q, k | 0 <= q < |s'.smr.recs| && k in s'.smr.recs[q].safe && k < |s'.smr.recs[q].slots|
      ensures q < |s.smr.recs| && Holds(s.smr.recs[q], s'.smr.recs[q].slots[k].ptr)
    {
      assert k in s.smr.recs[q].safe;
      assert H.Protects(s.smr.recs[q], k, s.smr.recs[q].slots[k].ptr);
    }
  }

  /** Inside an operation t itself is just one more bystander of its scan. */
  lemma ReclaimLocal(s: State, s': State, t: Tid)
    requires Reclaimed(s, s', t) && HeldAllocated(s) && H.Owners(s.smr) && H.Slots(s.smr) && H.SafeNames(s.smr)
    requires t in s.locals && LocalOk(s, t)
    requires Between(s.locals[t].at) || (!s.smr.pcs[t].Ready? && !s.smr.pcs[t].Leave?)
    ensures LocalOk(s', t)
  {
    hide H.Inv, LocOk;
    if !Between(s.locals[t].at) {
      var q := H.RecOf(s.smr.pcs[t]).value;
      assert H.Owns(s.smr.pcs[t], q);
      ReclaimInterf(s, s', t, t + 1);
      LocStays(s, s', t + 1, t, q, s.locals[t]);
    }
  }

  lemma LeavingOwnsNothing(s: State, t: Tid)
    requires Owed(s) && t in s.locals && s.locals[t].node == 0 && 0 !in s.heap
    ensures forall a {:trigger s.heap[a]} :: a in s.heap ==> s.heap[a].inserter != Some(t)
  {
  }

  lemma ReclaimOwed(s: State, s': State, t: Tid)
    requires Reclaimed(s, s', t) && Owed(s)
    ensures Owed(s')
  {
    hide H.Inv, SameSlots, PcStep;
    forall a | a in s'.heap ensures OwedAt(s'.locals, s'.heap, a) {
      assert OwedAt(s.locals, s.heap, a);
    }
  }

  lemma InvParts(s: State, t: Tid)
    requires Inv(s) && t in s.locals
    ensures H.Inv(s.smr) && H.Slots(s.smr) && H.Owners(s.smr) && H.SafeNames(s.smr) && s.smr.k == 4 && t in s.smr.pcs
    ensures H.PcOk(s.smr, s.smr.pcs[t])
    ensures ListOk(s.heap, s.head) && RetiredArePending(s) && HeldAllocated(s) && Owed(s) && LocalOk(s, t)
    ensures 0 !in s.heap
  {
  }

  lemma ReclaimStep(s: State, t: Tid)
    requires Inv(s) && t in s.locals && t in s.smr.pcs && H.PcOk(s.smr, s.smr.pcs[t]) && H.Slots(s.smr)
    requires Between(s.locals[t].at) || !s.smr.pcs[t].Ready?
    ensures Inv(DoReclaim(s, t))
  {
    hide Inv, H.Inv, ListOk, RetiredArePending, HeldAllocated, Owed, LocOk, SameSlots, HeapStep, RecsStep, H.Owners,
        H.SafeNames;
    var s' := DoReclaim(s, t);
    InvParts(s, t);
    ReclaimParts(s, t);
    if s.smr.pcs[t].Leave? {
      LeavingOwnsNothing(s, t);
    }
    ReclaimHeld(s, s', t);
    ReclaimInterf(s, s', t, t);
    ReclaimLocal(s, s', t);
    ReclaimOwed(s, s', t);
    StepKeepsInv(s, s', t);
  }
}
