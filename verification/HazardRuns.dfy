/**
 * Whole runs of the reclaimer under any client that retires only nodes not already
 * retired: nothing protected is freed, nothing is freed twice, nothing is lost.
 */
module HazardRuns {
  import opened Words
  import opened HazardPointers
  import opened HazardSafety

  /**
   * A step of thread t: its own reclamation code, or, between calls, a client's slot
   * store, a validation (the node is seen on no retire list), or a retireNode.
   */
  ghost predicate Next(h: Smr, h': Smr, t: Tid)
    reads {}
  {
    && t in h.pcs && Slots(h) && PcOk(h, h.pcs[t])
    && var pc := h.pcs[t];
       || (RecOf(pc).None? && h' == AllocateStep(h, t))
       || (Reclaiming(pc) && h' == ScanStep(h, t))
       || ((pc.HelpHead? || pc.Help? || pc.Take?) && h' == HelpStep(h, t))
       || ((pc.Ready? || pc.Leave?) && h' == LeaveStep(h, t))
       || (pc.Ready? && exists k: nat, w: Word :: k < h.k && h' == SetSlot(h, pc.r, k, w))
       || (pc.Ready? && exists k: nat :: k < h.k && Names(h, pc.r, k) && h' == Hold(h, pc.r, k))
       || (pc.Ready? && exists a: Addr :: a !in Pending(h.recs) && h' == RetireNode(h, t, pc.r, a))
  }

  /** Slot k names an un-retired node. */
  predicate Names(h: Smr, r: nat, k: nat)
    reads {}
  {
    r < |h.recs| && k < |h.recs[r].slots|
    && !h.recs[r].slots[k].tag && h.recs[r].slots[k].ptr != 0 && h.recs[r].slots[k].ptr !in Pending(h.recs)
  }

  lemma NextKeepsInv(h: Smr, h': Smr, t: Tid)
    requires Inv(h) && Next(h, h', t)
    ensures Inv(h')
  {
    hide Inv, AllocateStep, ScanStep, HelpStep, LeaveStep, SetSlot, Hold, RetireNode;
    var pc := h.pcs[t];
    if RecOf(pc).None? && h' == AllocateStep(h, t) {
      AllocateKeepsInv(h, t);
    } else if Reclaiming(pc) && h' == ScanStep(h, t) {
      ReclaimKeepsInv(h, t);
    } else if (pc.HelpHead? || pc.Help? || pc.Take?) && h' == HelpStep(h, t) {
      HelpKeepsInv(h, t);
    } else if (pc.Ready? || pc.Leave?) && h' == LeaveStep(h, t) {
      LeaveKeepsInv(h, t);
    } else if k: nat, w: Word :| k < h.k && h' == SetSlot(h, pc.r, k, w) {
      SetSlotKeepsInv(h, t, pc.r, k, w);
    } else if k: nat :| k < h.k && Names(h, pc.r, k) && h' == Hold(h, pc.r, k) {
      HoldKeepsInv(h, t, pc.r, k);
    } else {
      var a: Addr :| a !in Pending(h.recs) && h' == RetireNode(h, t, pc.r, a);
      RetireNodeKeepsInv(h, t, pc.r, a);
    }
  }

  datatype Run = Run(states: seq<Smr>, actors: seq<Tid>)

  ghost predicate IsRun(r: Run)
    reads {}
  {
    && |r.states| == |r.actors| + 1
    && Init(r.states[0])
    && (forall i :: 0 <= i < |r.actors| ==> Next(r.states[i], r.states[i + 1], r.actors[i]))
  }

  lemma InitInv(h: Smr)
    requires Init(h)
    ensures Inv(h)
  {
    assert Pushing(h.pcs) == {};
  }

  lemma {:induction false} RunInv(r: Run, n: nat)
    requires IsRun(r) && n < |r.states|
    ensures Inv(r.states[n])
  {
    hide Inv, Next, Init;
    if n == 0 {
      InitInv(r.states[0]);
    } else {
      RunInv(r, n - 1);
      assert Next(r.states[n - 1], r.states[n - 1 + 1], r.actors[n - 1]);
      NextKeepsInv(r.states[n - 1], r.states[n], r.actors[n - 1]);
    }
  }

  // ---------------------------------------------------------------- what one step frees and touches

  /** The log of deletions grows exactly by the victim of a sweep. */
  lemma FreedByVictim(h: Smr, h': Smr, t: Tid)
    requires Next(h, h', t)
    ensures h'.freedLog == h.freedLog
            || (Victim(h, t).Some? && h'.freedLog == h.freedLog + multiset{Victim(h, t).value})
  {
  }

  /** A node some slot of a record protects is not deleted by the next step. */
  lemma HeldIsNotFreed(h: Smr, h': Smr, t: Tid, q: nat, k: nat, a: Addr)
    requires Inv(h) && Next(h, h', t) && q < |h.recs| && Protects(h.recs[q], k, a)
    ensures h'.freedLog[a] == h.freedLog[a]
  {
    FreedByVictim(h, h', t);
    hide Next;
    if Victim(h, t).Some? {
      VictimNotProtected(h, t, q, k);
    }
  }

  ghost predicate HeldAt(h: Smr, q: nat, a: Addr)
    reads {}
  {
    q < |h.recs| && exists k: nat :: Protects(h.recs[q], k, a)
  }

  /** In every state from i to j some slot of record q protects a, not always the same one. */
  ghost predicate HeldThroughout(r: Run, q: nat, a: Addr, i: nat, j: nat)
    reads {}
  {
    && i <= j < |r.states|
    && (forall m {:trigger r.states[m]} :: i <= m <= j ==> HeldAt(r.states[m], q, a))
  }

  /**
   * Safety: while a thread keeps a node protected, in one slot or handing it upward
   * from slot to slot, no scan of any thread deletes it.
   */
  lemma {:induction false} HeldIsNeverFreed(r: Run, q: nat, a: Addr, i: nat, j: nat)
    requires IsRun(r) && HeldThroughout(r, q, a, i, j)
    ensures r.states[j].freedLog[a] == r.states[i].freedLog[a]
    decreases j
  {
    hide Inv, Next, Init;
    if i < j {
      assert HeldThroughout(r, q, a, i, j - 1);
      HeldIsNeverFreed(r, q, a, i, j - 1);
      RunInv(r, j - 1);
      assert HeldAt(r.states[j - 1], q, a);
      var k: nat :| Protects(r.states[j - 1].recs[q], k, a);
      assert Next(r.states[j - 1], r.states[j - 1 + 1], r.actors[j - 1]);
      HeldIsNotFreed(r.states[j - 1], r.states[j], r.actors[j - 1], q, k, a);
    }
  }

  /**
   * Conservation: what was retired is what was freed plus what is on the retire lists,
   * the lists are disjoint and without repetition, and a node retired once is freed at
   * most once and never while it is still on a list.
   */
  lemma NothingLostOrFreedTwice(r: Run, n: nat)
    requires IsRun(r) && n < |r.states|
    ensures var h := r.states[n];
            && h.retiredLog == h.freedLog + Pending(h.recs)
            && (forall a {:trigger h.freedLog[a]} :: h.retiredLog[a] <= 1 ==>
                 h.freedLog[a] <= 1 && (h.freedLog[a] == 1 ==> a !in Pending(h.recs)))
    ensures forall p, q, a ::
              0 <= p < |r.states[n].recs| && 0 <= q < |r.states[n].recs| && p != q
                  && a in r.states[n].recs[p].retired ==>
              a !in r.states[n].recs[q].retired
    ensures forall q, x, y :: 0 <= q < |r.states[n].recs| && 0 <= x < y < |r.states[n].recs[q].retired| ==>
              r.states[n].recs[q].retired[x] != r.states[n].recs[q].retired[y]
  {
    RunInv(r, n);
    hide IsRun;
    var h := r.states[n];
    assert Conserved(h);
    hide Inv;
    forall p, q, a | 0 <= p < |h.recs| && 0 <= q < |h.recs| && p != q && a in h.recs[p].retired
      ensures a !in h.recs[q].retired
    {
      PendingTwo(h.recs, p, q, a);
    }
    forall q, x, y | 0 <= q < |h.recs| && 0 <= x < y < |h.recs[q].retired|
      ensures h.recs[q].retired[x] != h.recs[q].retired[y]
    {
      PendingHas(h.recs, q, h.recs[q].retired[x]);
      TwiceIsTwo(h.recs[q].retired, x, y);
    }
  }

  lemma TwiceIsTwo(s: seq<Addr>, x: nat, y: nat)
    requires x < y < |s|
    ensures s[x] == s[y] ==> multiset(s)[s[x]] >= 2
  {
    assert s == s[..y] + [s[y]] + s[y + 1..];
    assert s[..y][x] == s[x];
  }

  /** A record has at most one holder, and only the holder touches its retire list. */
  lemma ListsAreOwned(h: Smr, h': Smr, t: Tid, q: nat)
    requires Inv(h) && Next(h, h', t) && q < |h.recs|
    ensures q < |h'.recs|
    ensures h'.recs[q].retired != h.recs[q].retired ==>
              h.recs[q].active && h.recs[q].owner == Some(t) && Owns(h.pcs[t], q)
    ensures forall u :: u in h.pcs && u != t && Owns(h.pcs[t], q) ==> !Owns(h.pcs[u], q)
  {
    assert forall u {:trigger h.pcs[u]} :: u in h.pcs && Owns(h.pcs[u], q) ==>
        h.recs[q].owner == Some(u) && h.recs[q].active;
    hide Inv, Shape, Owners, SafeNames, ScansSee, Conserved, Protects;
    ListChange(h, h', t, q);
  }

  lemma ListChange(h: Smr, h': Smr, t: Tid, q: nat)
    requires Next(h, h', t) && q < |h.recs|
    ensures q < |h'.recs|
    ensures h'.recs[q].retired != h.recs[q].retired ==> Owns(h.pcs[t], q)
  {
    hide Pending, HandedUp, SwapPop, ShouldScan, Victim, Slots;
  }
}
