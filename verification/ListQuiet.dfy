/** Steps that move one thread and its hazard slots and leave every node alone. */
module ListQuiet {
  import opened Words
  import H = HazardPointers
  import HS = HazardSafety
  import opened ListMap
  import opened ListInv
  import opened ListFrame

  // ---------------------------------------------------------------- the general step

  lemma StepKeepsInv(s: State, s': State, t: Tid)
    requires Inv(s) && t in s.locals && Interf(s, s', t)
    requires H.Inv(s'.smr) && s'.smr.k == 4
    requires ListOk(s'.heap, s'.head) && RetiredArePending(s') && HeldAllocated(s') && Owed(s')
    requires t in s'.locals && t in s'.smr.pcs && LocalOk(s', t)
    ensures Inv(s')
  {
    forall u | u in s'.locals ensures LocalOk(s', u) {
      if u != t {
        LocalStays(s, s', t, u);
      }
    }
  }

  lemma {:induction false} PendingByLists(recs: seq<H.Record>, recs': seq<H.Record>)
    requires |recs| == |recs'| && forall q :: 0 <= q < |recs| ==> recs'[q].retired == recs[q].retired
    ensures H.Pending(recs') == H.Pending(recs)
  {
    if recs != [] {
      PendingByLists(recs[..|recs| - 1], recs'[..|recs| - 1]);
    }
  }

  /** Only t's own slots and held set change, and it newly holds only published nodes or its own. */
  ghost predicate SlotsOnly(s: State, h': H.Smr, t: Tid)
    reads {}
  {
    && h'.pcs == s.smr.pcs && h'.k == s.smr.k && |h'.recs| == |s.smr.recs|
    && (forall q {:trigger h'.recs[q]} :: 0 <= q < |h'.recs| ==>
          && h'.recs[q].retired == s.smr.recs[q].retired && h'.recs[q].owner == s.smr.recs[q].owner
          && (s.smr.recs[q].owner != Some(t) ==> h'.recs[q] == s.smr.recs[q]))
    && (forall q, k {:trigger k in h'.recs[q].safe} ::
          0 <= q < |h'.recs| && k in h'.recs[q].safe && k < |h'.recs[q].slots| ==>
            var a := h'.recs[q].slots[k].ptr;
            || Holds(s.smr.recs[q], a)
            || (a in s.heap && (s.heap[a].stage.Private? ==> s.heap[a].inserter == Some(t) && InsertedBy(s, a, q))))
  }

  predicate OwesNode(at: Loc)
    reads {}
  {
    at.DropRef? || at.RetireDead? || at.RetireOwn?
  }

  lemma QuietHeld(s: State, s': State, t: Tid)
    requires HeldAllocated(s) && s'.heap == s.heap && SlotsOnly(s, s'.smr, t)
    ensures HeldAllocated(s')
  {
  }

  lemma QuietOwed(s: State, s': State, t: Tid, l: Local)
    requires Owed(s) && t in s.locals && s'.heap == s.heap
    requires s'.locals == s.locals[t := l] && l.node == s.locals[t].node && !OwesNode(s.locals[t].at)
    ensures Owed(s')
  {
  }

  lemma QuietInterf(s: State, s': State, t: Tid, l: Local)
    requires t in s.locals && s'.heap == s.heap && s'.head == s.head && s'.tower == s.tower
    requires s'.locals == s.locals[t := l] && SlotsOnly(s, s'.smr, t)
    ensures Interf(s, s', t)
  {
  }

  lemma QuietPending(s: State, s': State, t: Tid)
    requires RetiredArePending(s) && s'.heap == s.heap && SlotsOnly(s, s'.smr, t)
    ensures RetiredArePending(s')
  {
    PendingByLists(s.smr.recs, s'.smr.recs);
  }

  lemma QuietKeepsInv(s: State, s': State, t: Tid, l: Local)
    requires Inv(s) && t in s.locals && s'.heap == s.heap && s'.head == s.head && s'.tower == s.tower
    requires s'.locals == s.locals[t := l] && l.node == s.locals[t].node && !OwesNode(s.locals[t].at)
    requires SlotsOnly(s, s'.smr, t) && H.Inv(s'.smr)
    requires t in s'.locals && t in s'.smr.pcs && LocalOk(s', t)
    ensures Inv(s')
  {
    QuietOwed(s, s', t, l);
    SameHeapKeepsInv(s, s', t, l);
  }

  lemma SameHeapKeepsInv(s: State, s': State, t: Tid, l: Local)
    requires Inv(s) && t in s.locals && s'.heap == s.heap && s'.head == s.head && s'.tower == s.tower
    requires s'.locals == s.locals[t := l] && Owed(s')
    requires SlotsOnly(s, s'.smr, t) && H.Inv(s'.smr)
    requires t in s'.locals && t in s'.smr.pcs && LocalOk(s', t)
    ensures Inv(s')
  {
    QuietHeld(s, s', t);
    QuietInterf(s, s', t, l);
    QuietPending(s, s', t);
    StepKeepsInv(s, s', t);
  }

  // ---------------------------------------------------------------- the index loop

  lemma TowerClosed(s: State)
    requires Inv(s)
    ensures Closed(s.tower)
  {
  }

  /** Every step of the index loop is its first load, of a marked null, and the way out. */
  lemma TowerLeaves(s: State, s': State, t: Tid) returns (top: nat)
    requires Inv(s) && t in s.locals && s.locals[t].at.Tower? && TowerNext(s, s', t)
    ensures s.locals[t].at.over <= top <= |s.tower| && HasRecord(s, t) && s' == DoTower(s, t, top)
    ensures top > 0 ==> s.tower[top - 1] == MARKED_NULL
  {
    top :| s.locals[t].at.over <= top <= |s.tower|
           && if top == 0 || Marked0(s.tower[top - 1]) then s' == DoTower(s, t, top) else OpenStep(s, s', t);
  }

  // ---------------------------------------------------------------- slots

  /** A thread between reclamation calls owns a record of four slots. */
  lemma OwnRecord(s: State, t: Tid)
    requires Inv(s) && t in s.locals && s.smr.pcs[t].Ready?
    ensures HasRecord(s, t) && s.smr.recs[s.smr.pcs[t].r].owner == Some(t)
  {
    assert LocalOk(s, t);
    assert H.PcOk(s.smr, s.smr.pcs[t]);
    assert H.Owns(s.smr.pcs[t], s.smr.pcs[t].r);
  }

  predicate OwnsRecord(s: State, t: Tid)
    reads {}
  {
    HasRecord(s, t) && s.smr.recs[s.smr.pcs[t].r].owner == Some(t)
  }

  function Mine(s: State, t: Tid): H.Record
    requires OwnsRecord(s, t)
    reads {}
  {
    s.smr.recs[s.smr.pcs[t].r]
  }

  lemma HazardSet(s: State, t: Tid, k: nat, w: Word)
    requires H.Inv(s.smr) && OwnsRecord(s, t) && k < 4 && s.smr.k == 4
    ensures var s' := SetHazard(s, t, k, w);
            && H.Inv(s'.smr) && SlotsOnly(s, s'.smr, t)
            && OwnsRecord(s', t) && Mine(s', t) == H.StoreSlot(Mine(s, t), k, w)
  {
    HS.SetSlotKeepsInv(s.smr, t, s.smr.pcs[t].r, k, w);
    StoreSlotOnly(s, t, k, w);
  }

  lemma StoreSlotOnly(s: State, t: Tid, k: nat, w: Word)
    requires H.Slots(s.smr) && H.SafeNames(s.smr) && OwnsRecord(s, t) && k < 4 && s.smr.k == 4
    ensures SlotsOnly(s, SetHazard(s, t, k, w).smr, t)
  {
    var r := s.smr.pcs[t].r;
    var h' := SetHazard(s, t, k, w).smr;
    forall q, i | 0 <= q < |h'.recs| && i in h'.recs[q].safe && i < |h'.recs[q].slots|
      ensures Holds(s.smr.recs[q], h'.recs[q].slots[i].ptr)
    {
      if q == r && i == k {
        var j :| j in s.smr.recs[r].safe && j < k && s.smr.recs[r].slots[j] == w;
        assert H.Protects(s.smr.recs[r], j, w.ptr);
      } else {
        assert i in s.smr.recs[q].safe;
        assert H.Protects(s.smr.recs[q], i, h'.recs[q].slots[i].ptr);
      }
    }
  }

  /** A validated node is on no retire list, so the slot may protect it. */
  lemma HazardHeld(s: State, t: Tid, k: nat, a: Addr)
    requires H.Inv(s.smr) && OwnsRecord(s, t) && k < 4 && s.smr.k == 4
    requires Mine(s, t).slots[k] == Word(a, false)
    requires a != 0 ==>
               a in s.heap && a !in H.Pending(s.smr.recs)
                   && (s.heap[a].stage.Private? ==> s.heap[a].inserter == Some(t))
    ensures var s' := Validate(s, t, k, a);
            && H.Inv(s'.smr) && SlotsOnly(s, s'.smr, t) && OwnsRecord(s', t)
            && Mine(s', t) == if a == 0 then Mine(s, t) else H.Validated(Mine(s, t), k)
  {
    if a != 0 {
      HS.HoldKeepsInv(s.smr, t, s.smr.pcs[t].r, k);
    }
    ValidateOnly(s, t, k, a);
  }

  lemma ValidateOnly(s: State, t: Tid, k: nat, a: Addr)
    requires H.Slots(s.smr) && H.SafeNames(s.smr) && OwnsRecord(s, t) && k < 4 && s.smr.k == 4
    requires Mine(s, t).slots[k] == Word(a, false)
    requires a != 0 ==> a in s.heap && (s.heap[a].stage.Private? ==> s.heap[a].inserter == Some(t))
    ensures SlotsOnly(s, Validate(s, t, k, a).smr, t)
  {
    var r := s.smr.pcs[t].r;
    var h' := Validate(s, t, k, a).smr;
    forall q, i | 0 <= q < |h'.recs| && i in h'.recs[q].safe && i < |h'.recs[q].slots|
      ensures Holds(s.smr.recs[q], h'.recs[q].slots[i].ptr) || (a != 0 && q == r && i == k)
    {
      if a == 0 || q != r || i != k {
        assert i in s.smr.recs[q].safe;
        assert H.Protects(s.smr.recs[q], i, h'.recs[q].slots[i].ptr);
      }
    }
  }

  lemma SlotsOnlySame(s: State, t: Tid)
    requires H.Inv(s.smr)
    ensures SlotsOnly(s, s.smr, t)
  {
    forall q, k | 0 <= q < |s.smr.recs| && k in s.smr.recs[q].safe && k < |s.smr.recs[q].slots|
      ensures Holds(s.smr.recs[q], s.smr.recs[q].slots[k].ptr)
    {
      assert H.Protects(s.smr.recs[q], k, s.smr.recs[q].slots[k].ptr);
    }
  }
}
