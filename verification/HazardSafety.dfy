/** Every step of the reclamation machine keeps its invariant. */
module HazardSafety {
  import opened Words
  import opened HazardPointers

  // ---------------------------------------------------------------- retire lists as one multiset

  lemma {:induction false} PendingSame(recs: seq<Record>, q: nat, rec: Record)
    requires q < |recs| && rec.retired == recs[q].retired
    ensures Pending(recs[q := rec]) == Pending(recs)
  {
    var n := |recs| - 1;
    if q == n {
      assert recs[q := rec][..n] == recs[..n];
    } else {
      PendingSame(recs[..n], q, rec);
      assert recs[q := rec][..n] == recs[..n][q := rec];
    }
  }

  /** One more node on one list is one more node pending. */
  lemma {:induction false} PendingPlus(recs: seq<Record>, q: nat, rec: Record, a: Addr)
    requires q < |recs| && multiset(rec.retired) == multiset(recs[q].retired) + multiset{a}
    ensures Pending(recs[q := rec]) == Pending(recs) + multiset{a}
  {
    var n := |recs| - 1;
    if q == n {
      assert recs[q := rec][..n] == recs[..n];
    } else {
      PendingPlus(recs[..n], q, rec, a);
      assert recs[q := rec][..n] == recs[..n][q := rec];
    }
  }

  lemma {:induction false} PendingHas(recs: seq<Record>, q: nat, a: Addr)
    requires q < |recs|
    ensures multiset(recs[q].retired)[a] <= Pending(recs)[a]
  {
    var n := |recs| - 1;
    if q < n {
      PendingHas(recs[..n], q, a);
    }
  }

  lemma {:induction false} PendingFind(recs: seq<Record>, a: Addr) returns (q: nat)
    requires a in Pending(recs)
    ensures q < |recs| && a in recs[q].retired
  {
    var n := |recs| - 1;
    if a in recs[n].retired {
      q := n;
    } else {
      q := PendingFind(recs[..n], a);
    }
  }

  lemma PendingAppend(recs: seq<Record>, rec: Record)
    ensures Pending(recs + [rec]) == Pending(recs) + multiset(rec.retired)
  {
    assert (recs + [rec])[..|recs|] == recs;
  }

  /** Two lists never share a node, because together they hold it at most once. */
  lemma {:induction false} PendingTwo(recs: seq<Record>, p: nat, q: nat, a: Addr)
    requires p < |recs| && q < |recs| && p != q
    ensures multiset(recs[p].retired)[a] + multiset(recs[q].retired)[a] <= Pending(recs)[a]
  {
    var n := |recs| - 1;
    if p == n {
      PendingHas(recs[..n], q, a);
    } else if q == n {
      PendingHas(recs[..n], p, a);
    } else {
      PendingTwo(recs[..n], p, q, a);
    }
  }

  lemma MultisetPop(s: seq<Addr>)
    requires |s| > 0
    ensures multiset(s) == multiset(s[..|s| - 1]) + multiset{s[|s| - 1]}
  {
    assert s == s[..|s| - 1] + [s[|s| - 1]];
  }

  /** Swap-and-pop drops exactly the element at i. */
  lemma MultisetSwapPop(s: seq<Addr>, i: nat)
    requires i < |s|
    ensures multiset(s) == multiset(SwapPop(s, i)) + multiset{s[i]}
  {
    var n := |s| - 1;
    var z := s[n];
    MultisetPop(s);
    if i < n {
      var front := s[..n];
      assert SwapPop(s, i) == front[i := z];
      assert multiset(front[i := z]) == multiset(front) - multiset{front[i]} + multiset{z};
      assert front[i] in multiset(front);
    } else {
      assert SwapPop(s, i) == s[..n];
    }
  }

  // ---------------------------------------------------------------- who is mid-push

  lemma PushingSame(pcs: map<Tid, Pc>, t: Tid, pc: Pc)
    requires t in pcs
    requires (pcs[t].Push? || pcs[t].PushCas?) == (pc.Push? || pc.PushCas?)
    ensures Pushing(pcs[t := pc]) == Pushing(pcs)
  {
  }

  lemma PushingEnter(pcs: map<Tid, Pc>, t: Tid, pc: Pc)
    requires t in pcs && !pcs[t].Push? && !pcs[t].PushCas? && pc.Push?
    ensures |Pushing(pcs[t := pc])| == |Pushing(pcs)| + 1
  {
    assert Pushing(pcs[t := pc]) == Pushing(pcs) + {t};
    assert t !in Pushing(pcs);
  }

  lemma PushingLeave(pcs: map<Tid, Pc>, t: Tid, pc: Pc)
    requires t in pcs && pcs[t].PushCas? && pc.Ready?
    ensures |Pushing(pcs[t := pc])| == |Pushing(pcs)| - 1
  {
    assert Pushing(pcs) == Pushing(pcs[t := pc]) + {t};
    assert t !in Pushing(pcs[t := pc]);
  }

  // ---------------------------------------------------------------- steps that move one program counter

  /** Ownership after a step of t that changes the owner field of at most the record it gains. */
  lemma OwnersMove(h: Smr, h': Smr, t: Tid, pc: Pc)
    requires Owners(h) && t in h.pcs && h'.pcs == h.pcs[t := pc] && |h'.recs| >= |h.recs|
    requires forall q :: 0 <= q < |h'.recs| ==> (h'.recs[q].active <==> h'.recs[q].owner.Some?)
    requires forall q: nat :: Owns(pc, q) ==> q < |h'.recs| && h'.recs[q].owner == Some(t)
    requires forall q: nat :: q < |h'.recs| && h'.recs[q].owner == Some(t) ==> Owns(pc, q)
    requires forall q: nat :: q < |h.recs| && h.recs[q].owner != Some(t) && h'.recs[q].owner != Some(t) ==>
               h'.recs[q].owner == h.recs[q].owner
    requires forall q: nat :: q < |h.recs| && h.recs[q].owner != Some(t) && h.recs[q].owner.Some? ==>
               h'.recs[q].owner == h.recs[q].owner
    requires forall q: nat :: q < |h.recs| && h.recs[q].owner == Some(t) && h'.recs[q].owner.Some? ==>
               h'.recs[q].owner == Some(t)
    requires forall q: nat :: |h.recs| <= q < |h'.recs| ==> h'.recs[q].owner == Some(t)
    ensures Owners(h')
  {
    forall u, q: nat | u in h'.pcs && Owns(h'.pcs[u], q)
      ensures q < |h'.recs| && h'.recs[q].owner == Some(u)
    {
      if u != t {
        assert Owns(h.pcs[u], q);
      }
    }
    forall q | 0 <= q < |h'.recs| && h'.recs[q].owner.Some?
      ensures h'.recs[q].owner.value in h'.pcs && Owns(h'.pcs[h'.recs[q].owner.value], q)
    {
      if h'.recs[q].owner != Some(t) {
        assert h'.recs[q].owner == h.recs[q].owner;
      }
    }
  }

  // ---------------------------------------------------------------- steps that change records

  /** Lists not owned by t are untouched. */
  ghost predicate OthersLists(h: Smr, h': Smr, t: Tid)
    requires |h.recs| <= |h'.recs|
    reads {}
  {
    forall q {:trigger h'.recs[q]} :: 0 <= q < |h.recs| && h.recs[q].owner != Some(t) ==>
        h'.recs[q].retired == h.recs[q].retired
  }

  /** A safe slot was safe before, or was handed its node from below, or names a node on no list. */
  ghost predicate HeldStep(h: Smr, h': Smr)
    requires Slots(h) && Slots(h') && h.k == h'.k
    reads {}
  {
    forall q, k {:trigger k in h'.recs[q].safe} :: 0 <= q < |h'.recs| && k in h'.recs[q].safe && k < h.k ==>
      || h'.recs[q].slots[k].ptr !in Pending(h.recs)
      || (q < |h.recs| && exists j {:trigger j in h.recs[q].safe} ::
           j in h.recs[q].safe && j <= k && h.recs[q].slots[j] == h'.recs[q].slots[k])
  }

  /** The simple case: slots and their safety are as before. */
  lemma SlotsSame(h: Smr, h': Smr)
    requires Slots(h) && h.k == h'.k && |h.recs| == |h'.recs|
    requires forall q {:trigger h'.recs[q]} :: 0 <= q < |h.recs| ==>
               h'.recs[q].slots == h.recs[q].slots && h'.recs[q].safe == h.recs[q].safe
    ensures Slots(h') && HeldStep(h, h')
    ensures SafeNames(h) ==> SafeNames(h')
  {
    forall q, k | 0 <= q < |h'.recs| && k in h'.recs[q].safe && k < h.k
      ensures k in h.recs[q].safe && h.recs[q].slots[k] == h'.recs[q].slots[k]
    {
    }
  }

  /** What a step of t must establish for the scans and positions of every other thread to stay right. */
  lemma OthersKeep(h: Smr, h': Smr, t: Tid, u: Tid)
    requires Shape(h) && Owners(h) && ScansSee(h) && t in h.pcs && u in h.pcs && u != t
    requires h'.k == h.k && Slots(h') && |h.recs| <= |h'.recs| && OthersLists(h, h', t) && HeldStep(h, h')
    ensures PcOk(h', h.pcs[u]) && ScanSees(h', h.pcs[u])
  {
    var pc := h.pcs[u];
    assert PcOk(h, pc) && ScanSees(h, pc);
    if pc.Scan? || pc.Sweep? {
      var r := pc.p.r;
      assert Owns(pc, r);
      assert h'.recs[r].retired == h.recs[r].retired;
      forall q, k | 0 <= q < |h'.recs| && k in h'.recs[q].safe && k < h.k
          && h'.recs[q].slots[k].ptr in h.recs[r].retired
        ensures q < |h.recs| && exists j {:trigger j in h.recs[q].safe} ::
                  j in h.recs[q].safe && j <= k && h.recs[q].slots[j] == h'.recs[q].slots[k]
      {
        PendingHas(h.recs, r, h'.recs[q].slots[k].ptr);
      }
    }
  }

  lemma StepKeepsInv(h: Smr, h': Smr, t: Tid, pc: Pc)
    requires Inv(h) && t in h.pcs && h'.pcs == h.pcs[t := pc]
    requires h'.k == h.k && |h.recs| <= |h'.recs| && Slots(h')
    requires h'.count == |h'.recs| + |Pushing(h'.pcs)|
    requires OthersLists(h, h', t) && HeldStep(h, h')
    requires PcOk(h', pc) && ScanSees(h', pc)
    requires Owners(h') && SafeNames(h') && Conserved(h')
    ensures Inv(h')
  {
    forall u | u in h'.pcs
      ensures PcOk(h', h'.pcs[u]) && ScanSees(h', h'.pcs[u])
    {
      if u != t {
        OthersKeep(h, h', t, u);
      }
    }
  }

  lemma ClaimOwners(h: Smr, t: Tid, q: nat, pc: Pc)
    requires Owners(h) && t in h.pcs && q < |h.recs| && !h.recs[q].active
    requires forall p: nat :: Owns(pc, p) <==> Owns(h.pcs[t], p) || p == q
    ensures Owners(At(Claim(h, t, q), t, pc))
  {
    var h' := At(Claim(h, t, q), t, pc);
    forall p: nat | Owns(pc, p) ensures p < |h'.recs| && h'.recs[p].owner == Some(t) {
      assert p != q ==> Owns(h.pcs[t], p);
    }
    forall p: nat | p < |h'.recs| && h'.recs[p].owner == Some(t) ensures Owns(pc, p) {
      assert p != q ==> Owns(h.pcs[t], p);
    }
    OwnersMove(h, h', t, pc);
  }

  /** Taking an inactive record, whether in allocate or in helpScan. */
  lemma ClaimKeepsInv(h: Smr, t: Tid, q: nat, pc: Pc)
    requires Inv(h) && t in h.pcs && q < |h.recs| && !h.recs[q].active
    requires forall p: nat :: Owns(pc, p) <==> Owns(h.pcs[t], p) || p == q
    requires !h.pcs[t].Push? && !h.pcs[t].PushCas? && !pc.Push? && !pc.PushCas? && !pc.Scan? && !pc.Sweep?
    requires PcOk(h, pc)
    ensures Inv(At(Claim(h, t, q), t, pc))
  {
    var h' := At(Claim(h, t, q), t, pc);
    PushingSame(h.pcs, t, pc);
    PendingSame(h.recs, q, h'.recs[q]);
    ClaimOwners(h, t, q, pc);
    SlotsSame(h, h');
    StepKeepsInv(h, h', t, pc);
  }

  lemma OwnersSame(h: Smr, h': Smr, t: Tid, pc: Pc)
    requires Owners(h) && t in h.pcs && h'.pcs == h.pcs[t := pc] && |h'.recs| == |h.recs|
    requires RecOf(pc) == RecOf(h.pcs[t]) && LockOf(pc) == LockOf(h.pcs[t])
    requires forall q {:trigger h'.recs[q]} :: 0 <= q < |h.recs| ==>
               h'.recs[q].active == h.recs[q].active && h'.recs[q].owner == h.recs[q].owner
    ensures Owners(h')
  {
    forall q: nat | Owns(pc, q) ensures q < |h'.recs| && h'.recs[q].owner == Some(t) {
      assert Owns(h.pcs[t], q);
    }
    forall q: nat | q < |h'.recs| && h'.recs[q].owner == Some(t) ensures Owns(pc, q) {
      assert Owns(h.pcs[t], q);
    }
    OwnersMove(h, h', t, pc);
  }

  /** A step of t that keeps its records and its distance from a push. */
  lemma QuietKeepsInv(h: Smr, h': Smr, t: Tid, pc: Pc)
    requires Inv(h) && t in h.pcs && h'.pcs == h.pcs[t := pc]
    requires RecOf(pc) == RecOf(h.pcs[t]) && LockOf(pc) == LockOf(h.pcs[t])
    requires (h.pcs[t].Push? || h.pcs[t].PushCas?) == (pc.Push? || pc.PushCas?)
    requires h'.k == h.k && Slots(h') && h'.count == h.count && |h.recs| == |h'.recs|
    requires forall q {:trigger h'.recs[q]} :: 0 <= q < |h.recs| ==>
               h'.recs[q].active == h.recs[q].active && h'.recs[q].owner == h.recs[q].owner
    requires OthersLists(h, h', t) && HeldStep(h, h')
    requires PcOk(h', pc) && ScanSees(h', pc)
    requires SafeNames(h') && Conserved(h')
    ensures Inv(h')
  {
    PushingSame(h.pcs, t, pc);
    OwnersSame(h, h', t, pc);
    StepKeepsInv(h, h', t, pc);
  }

  /** A step that only advances t. */
  lemma MoveKeepsInv(h: Smr, t: Tid, pc: Pc)
    requires Inv(h) && t in h.pcs
    requires RecOf(pc) == RecOf(h.pcs[t]) && LockOf(pc) == LockOf(h.pcs[t])
    requires (h.pcs[t].Push? || h.pcs[t].PushCas?) == (pc.Push? || pc.PushCas?)
    requires PcOk(h, pc) && ScanSees(h, pc)
    ensures Inv(At(h, t, pc))
  {
    var h' := At(h, t, pc);
    assert ScanSees(h', pc) by {
      if pc.Scan? || pc.Sweep? {
        assert ScanSees(h, pc);
      }
    }
    SlotsSame(h, h');
    QuietKeepsInv(h, h', t, pc);
  }

  // ---------------------------------------------------------------- allocate and retire

  lemma PublishOwners(h: Smr, h': Smr, t: Tid)
    requires Owners(h) && t in h.pcs && RecOf(h.pcs[t]).None? && LockOf(h.pcs[t]).None?
    requires h'.recs == h.recs + [NewRecord(h.k, t)]
    requires h'.pcs == h.pcs[t := Ready(|h.recs|)]
    ensures Owners(h')
  {
    var pc := Ready(|h.recs|);
    forall q: nat | q < |h.recs| ensures h.recs[q].owner != Some(t) {
      var mine := Owns(h.pcs[t], q);
    }
    OwnersMove(h, h', t, pc);
  }

  /** A fresh record is seen by no running scan and holds nothing. */
  lemma PublishFrame(h: Smr, h': Smr, t: Tid)
    requires Slots(h) && SafeNames(h) && Conserved(h)
    requires h'.k == h.k && h'.recs == h.recs + [NewRecord(h.k, t)]
    requires h'.retiredLog == h.retiredLog && h'.freedLog == h.freedLog
    ensures Slots(h') && SafeNames(h') && Conserved(h')
    ensures OthersLists(h, h', t) && HeldStep(h, h')
  {
    PendingAppend(h.recs, NewRecord(h.k, t));
    assert Pending(h'.recs) == Pending(h.recs);
    forall q, k | 0 <= q < |h'.recs| && k in h'.recs[q].safe && k < h.k
      ensures q < |h.recs| && k in h.recs[q].safe && h.recs[q].slots[k] == h'.recs[q].slots[k]
    {
    }
  }

  /** allocate's publishing compare-exchange. */
  lemma PublishKeepsInv(h: Smr, t: Tid)
    requires Inv(h) && t in h.pcs && h.pcs[t].PushCas? && |h.recs| - 1 == h.pcs[t].seen
    ensures Inv(AllocateStep(h, t))
  {
    hide ScansSee, Conserved, SafeNames, HeldStep, OthersLists, Owners;
    var h' := AllocateStep(h, t);
    PushingLeave(h.pcs, t, Ready(|h.recs|));
    PublishFrame(h, h', t);
    PublishOwners(h, h', t);
    StepKeepsInv(h, h', t, Ready(|h.recs|));
  }

  lemma CountKeepsInv(h: Smr, t: Tid)
    requires Inv(h) && t in h.pcs && h.pcs[t].Walk?
    ensures Inv(At(h.(count := h.count + 1), t, Push))
  {
    var h' := At(h.(count := h.count + 1), t, Push);
    PushingEnter(h.pcs, t, Push);
    OwnersSame(h, h', t, Push);
    StepKeepsInv(h, h', t, Push);
  }

  lemma WalkKeepsInv(h: Smr, t: Tid)
    requires Inv(h) && t in h.pcs && h.pcs[t].Walk? && h.pcs[t].at < |h.recs|
    ensures Inv(AllocateStep(h, t))
  {
    hide ScansSee, Conserved, SafeNames, Owners;
    var at := h.pcs[t].at;
    if at < 0 {
      CountKeepsInv(h, t);
    } else {
      var pc := if h.recs[at].active then Walk(at - 1) else WalkCas(at);
      assert AllocateStep(h, t) == At(h, t, pc);
      MoveKeepsInv(h, t, pc);
    }
  }

  lemma WalkCasKeepsInv(h: Smr, t: Tid)
    requires Inv(h) && t in h.pcs && h.pcs[t].WalkCas? && 0 <= h.pcs[t].at < |h.recs|
    ensures Inv(AllocateStep(h, t))
  {
    var at := h.pcs[t].at;
    if h.recs[at].active {
      assert AllocateStep(h, t) == At(h, t, Walk(at - 1));
      MoveKeepsInv(h, t, Walk(at - 1));
    } else {
      assert AllocateStep(h, t) == At(Claim(h, t, at), t, Ready(at));
      ClaimKeepsInv(h, t, at, Ready(at));
    }
  }

  lemma AllocateKeepsInv(h: Smr, t: Tid)
    requires Inv(h) && t in h.pcs && RecOf(h.pcs[t]).None? && PcOk(h, h.pcs[t])
    ensures Inv(AllocateStep(h, t))
  {
    match h.pcs[t]
    case NoRecord => MoveKeepsInv(h, t, Walk(|h.recs| - 1));
    case Walk(at) => WalkKeepsInv(h, t);
    case WalkCas(at) => WalkCasKeepsInv(h, t);
    case Push => MoveKeepsInv(h, t, PushCas(|h.recs| - 1));
    case PushCas(seen) =>
      if |h.recs| - 1 == seen {
        PublishKeepsInv(h, t);
      } else {
        MoveKeepsInv(h, t, Push);
      }
  }

  /** A slot store makes no node safe that a lower slot was not already protecting. */
  lemma StoreSlotFrame(h: Smr, r: nat, k: nat, w: Word)
    requires Slots(h) && SafeNames(h) && r < |h.recs| && k < h.k
    ensures Slots(SetSlot(h, r, k, w)) && SafeNames(SetSlot(h, r, k, w)) && HeldStep(h, SetSlot(h, r, k, w))
  {
    var h' := SetSlot(h, r, k, w);
    forall q, i | 0 <= q < |h'.recs| && i in h'.recs[q].safe && i < h.k
      ensures exists j {:trigger j in h.recs[q].safe} ::
                j in h.recs[q].safe && j <= i && h.recs[q].slots[j] == h'.recs[q].slots[i]
    {
      if q != r || i != k {
        assert i in h.recs[q].safe;
      }
    }
  }

  lemma ConservedSame(h: Smr, h': Smr)
    requires Conserved(h) && Pending(h'.recs) == Pending(h.recs) && h'.retiredLog == h.retiredLog
    requires h'.freedLog == h.freedLog
    ensures Conserved(h')
  {
  }

  lemma SetSlotKeepsInv(h: Smr, t: Tid, r: nat, k: nat, w: Word)
    requires Inv(h) && t in h.pcs && RecOf(h.pcs[t]) == Some(r) && k < h.k
    requires !h.pcs[t].Scan? && !h.pcs[t].Sweep?
    requires r < |h.recs| && k < |h.recs[r].slots|
    ensures Inv(SetSlot(h, r, k, w))
  {
    var h' := SetSlot(h, r, k, w);
    StoreSlotFrame(h, r, k, w);
    hide SafeNames, HeldStep, ScansSee, Owners;
    PendingSame(h.recs, r, h'.recs[r]);
    ConservedSame(h, h');
    hide Conserved, Pending;
    QuietKeepsInv(h, h', t, h.pcs[t]);
  }

  lemma ValidatedFrame(h: Smr, r: nat, k: nat)
    requires Slots(h) && SafeNames(h) && r < |h.recs| && k < h.k
    requires !h.recs[r].slots[k].tag && h.recs[r].slots[k].ptr != 0 && h.recs[r].slots[k].ptr !in Pending(h.recs)
    ensures Slots(Hold(h, r, k)) && SafeNames(Hold(h, r, k)) && HeldStep(h, Hold(h, r, k))
  {
    var h' := Hold(h, r, k);
    forall q, i | 0 <= q < |h'.recs| && i in h'.recs[q].safe && i < h.k && (q != r || i != k)
      ensures i in h.recs[q].safe && h.recs[q].slots[i] == h'.recs[q].slots[i]
    {
    }
  }

  /** Validation: the node a slot names is on no retire list. */
  lemma HoldKeepsInv(h: Smr, t: Tid, r: nat, k: nat)
    requires Inv(h) && t in h.pcs && RecOf(h.pcs[t]) == Some(r) && r < |h.recs| && k < h.k
    requires !h.pcs[t].Scan? && !h.pcs[t].Sweep? && k < |h.recs[r].slots|
    requires !h.recs[r].slots[k].tag && h.recs[r].slots[k].ptr != 0 && h.recs[r].slots[k].ptr !in Pending(h.recs)
    ensures Inv(Hold(h, r, k))
  {
    hide Pending, SafeNames, HeldStep, ScansSee, Owners, Conserved;
    var h' := Hold(h, r, k);
    ValidatedFrame(h, r, k);
    PendingSame(h.recs, r, h'.recs[r]);
    ConservedSame(h, h');
    hide Conserved, Pending;
    QuietKeepsInv(h, h', t, h.pcs[t]);
  }

  lemma RetireNodeKeepsInv(h: Smr, t: Tid, r: nat, a: Addr)
    requires Inv(h) && t in h.pcs && h.pcs[t] == Ready(r) && r < |h.recs|
    requires a !in Pending(h.recs)
    ensures Inv(RetireNode(h, t, r, a))
    ensures Pending(RetireNode(h, t, r, a).recs) == Pending(h.recs) + multiset{a}
  {
    var h' := RetireNode(h, t, r, a);
    PendingPlus(h.recs, r, h'.recs[r], a);
    SlotsSame(h, h');
    assert Owns(h.pcs[t], r);
    QuietKeepsInv(h, h', t, Check(r, Client));
  }

  // ---------------------------------------------------------------- scan

  /** The walk in ascending slot order: what the next read sees, and what it may then forget. */
  lemma ScanReadSees(h: Smr, p: Pass, at: int, slot: nat)
    requires Slots(h) && SafeNames(h) && PcOk(h, Scan(p, at, slot)) && at >= 0
    requires ScanSees(h, Scan(p, at, slot))
    requires slot < h.k
    ensures var w := h.recs[at].slots[slot];
            ScanSees(h, Scan(if w == NULL then p else p.(live := p.live + {w}), at, slot + 1))
  {
  }

  lemma ScanReadKeepsInv(h: Smr, t: Tid)
    requires Inv(h) && t in h.pcs && h.pcs[t].Scan? && PcOk(h, h.pcs[t])
    requires h.pcs[t].at >= 0 && h.pcs[t].slot < h.k
    ensures Inv(ScanStep(h, t))
  {
    var Scan(p, at, slot) := h.pcs[t];
    var w := h.recs[at].slots[slot];
    var pc := Scan(if w == NULL then p else p.(live := p.live + {w}), at, slot + 1);
    assert ScanStep(h, t) == At(h, t, pc);
    ScanReadSees(h, p, at, slot);
    MoveKeepsInv(h, t, pc);
  }

  lemma ScanNextKeepsInv(h: Smr, t: Tid)
    requires Inv(h) && t in h.pcs && h.pcs[t].Scan? && PcOk(h, h.pcs[t])
    requires h.pcs[t].at < 0 || h.pcs[t].slot == h.k
    ensures Inv(ScanStep(h, t))
  {
    var Scan(p, at, slot) := h.pcs[t];
    assert ScanSees(h, h.pcs[t]);
    var pc := if at < 0 then Sweep(p, 0) else Scan(p, at - 1, 0);
    assert ScanStep(h, t) == At(h, t, pc);
    assert ScanSees(h, pc);
    MoveKeepsInv(h, t, pc);
  }

  /** Deleting one swept node: it is held by no record, and it leaves the list for the log. */
  lemma FreeKeepsInv(h: Smr, t: Tid)
    requires Inv(h) && t in h.pcs && Victim(h, t).Some?
    ensures Inv(ScanStep(h, t))
    ensures Pending(h.recs) == Pending(ScanStep(h, t).recs) + multiset{Victim(h, t).value}
  {
    hide Conserved, SafeNames, HeldStep, OthersLists, Owners;
    var Sweep(p, iter) := h.pcs[t];
    var rec := h.recs[p.r];
    var h' := WithRec(h, p.r,
        rec.(retired := SwapPop(rec.retired, iter))).(freedLog := h.freedLog + multiset{rec.retired[iter]});
    assert ScanStep(h, t) == h';
    assert Owns(h.pcs[t], p.r);
    FreeFrame(h, h', p.r, iter);
    AdoptOthers(h, h', t, p.r, p.r);
    FreeConserved(h, h', p.r, iter);
    SweepSees(h, h', h.pcs[t]);
    QuietKeepsInv(h, h', t, h.pcs[t]);
  }

  lemma SweepSees(h: Smr, h': Smr, pc: Pc)
    requires Slots(h) && Slots(h') && h.k == h'.k && |h.recs| == |h'.recs| && pc.Sweep? && PcOk(h, pc) && PcOk(h', pc)
    requires ScanSees(h, pc)
    requires forall q {:trigger h'.recs[q]} :: 0 <= q < |h.recs| ==>
               h'.recs[q].slots == h.recs[q].slots && h'.recs[q].safe == h.recs[q].safe
    requires forall a :: a in h'.recs[pc.p.r].retired ==> a in h.recs[pc.p.r].retired
    ensures ScanSees(h', pc)
  {
    forall q, k | 0 <= q < |h'.recs| && k in h'.recs[q].safe && k < h.k
        && h'.recs[q].slots[k].ptr in h'.recs[pc.p.r].retired
      ensures h'.recs[q].slots[k] in pc.p.live
    {
      assert k in h.recs[q].safe;
    }
  }

  lemma FreeFrame(h: Smr, h': Smr, r: nat, i: nat)
    requires Slots(h) && SafeNames(h) && r < |h.recs| && i < |h.recs[r].retired| && h'.k == h.k
    requires h'.recs == h.recs[r := h.recs[r].(retired := SwapPop(h.recs[r].retired, i))]
    ensures Slots(h') && SafeNames(h') && HeldStep(h, h')
    ensures forall p {:trigger h'.recs[p]} :: 0 <= p < |h.recs| ==>
              h'.recs[p].active == h.recs[p].active && h'.recs[p].owner == h.recs[p].owner
                  && h'.recs[p].slots == h.recs[p].slots && h'.recs[p].safe == h.recs[p].safe
                       && (p != r ==> h'.recs[p] == h.recs[p])
    ensures forall a :: a in h'.recs[r].retired ==> a in h.recs[r].retired
  {
    SlotsSame(h, h');
    forall a | a in h'.recs[r].retired ensures a in h.recs[r].retired {
      var j :| 0 <= j < |h'.recs[r].retired| && h'.recs[r].retired[j] == a;
    }
  }

  lemma FreeConserved(h: Smr, h': Smr, r: nat, i: nat)
    requires r < |h.recs| && i < |h.recs[r].retired| && Conserved(h)
    requires h'.recs == h.recs[r := h.recs[r].(retired := SwapPop(h.recs[r].retired, i))]
    requires h'.retiredLog == h.retiredLog && h'.freedLog == h.freedLog + multiset{h.recs[r].retired[i]}
    ensures Conserved(h') && Pending(h.recs) == Pending(h'.recs) + multiset{h.recs[r].retired[i]}
  {
    var a := h.recs[r].retired[i];
    MultisetSwapPop(h.recs[r].retired, i);
    assert h'.recs[r := h.recs[r]] == h.recs;
    PendingPlus(h'.recs, r, h.recs[r], a);
    forall b ensures Pending(h'.recs)[b] <= 1 {
      assert Pending(h'.recs)[b] <= Pending(h.recs)[b];
    }
  }

  lemma SweepKeepsInv(h: Smr, t: Tid)
    requires Inv(h) && t in h.pcs && h.pcs[t].Sweep? && PcOk(h, h.pcs[t])
    ensures Inv(ScanStep(h, t))
  {
    var Sweep(p, iter) := h.pcs[t];
    assert ScanSees(h, h.pcs[t]);
    if Victim(h, t).Some? {
      FreeKeepsInv(h, t);
    } else {
      var pc := if iter >= |h.recs[p.r].retired| then AfterScan(p) else Sweep(p, iter + 1);
      assert ScanStep(h, t) == At(h, t, pc);
      MoveKeepsInv(h, t, pc);
    }
  }

  lemma CheckKeepsInv(h: Smr, t: Tid)
    requires Inv(h) && t in h.pcs && h.pcs[t].Check? && PcOk(h, h.pcs[t])
    ensures Inv(ScanStep(h, t))
  {
    var Check(r, from) := h.pcs[t];
    var pc := if ShouldScan(h, r) then Head(Pass(r, from, |h.recs[r].retired|, h.count, 0, {}))
        else AfterCheck(r, from);
    assert ScanStep(h, t) == At(h, t, pc);
    MoveKeepsInv(h, t, pc);
  }

  lemma HeadKeepsInv(h: Smr, t: Tid)
    requires Inv(h) && t in h.pcs && h.pcs[t].Head? && PcOk(h, h.pcs[t])
    ensures Inv(ScanStep(h, t))
  {
    var pc := Scan(h.pcs[t].p.(top := |h.recs|, live := {}), |h.recs| - 1, 0);
    assert ScanStep(h, t) == At(h, t, pc);
    assert ScanSees(h, pc);
    MoveKeepsInv(h, t, pc);
  }

  lemma ReclaimKeepsInv(h: Smr, t: Tid)
    requires Inv(h) && t in h.pcs && Reclaiming(h.pcs[t]) && PcOk(h, h.pcs[t])
    ensures Inv(ScanStep(h, t))
  {
    match h.pcs[t]
    case Check(_, _) => CheckKeepsInv(h, t);
    case Head(_) => HeadKeepsInv(h, t);
    case Scan(_, at, slot) =>
      if at >= 0 && slot < h.k {
        ScanReadKeepsInv(h, t);
      } else {
        ScanNextKeepsInv(h, t);
      }
    case Sweep(_, _) => SweepKeepsInv(h, t);
  }

  /** Nothing protected is freed: no slot of any record protects the node a sweep deletes. */
  lemma VictimNotProtected(h: Smr, t: Tid, q: nat, k: nat)
    requires Inv(h) && t in h.pcs && Victim(h, t).Some? && q < |h.recs|
    ensures !Protects(h.recs[q], k, Victim(h, t).value)
  {
    assert PcOk(h, h.pcs[t]) && ScanSees(h, h.pcs[t]);
    if k < h.k && k in h.recs[q].safe {
      assert h.recs[q].slots[k].ptr in h.recs[h.pcs[t].p.r].retired ==> h.recs[q].slots[k] in h.pcs[t].p.live;
    }
  }

  // ---------------------------------------------------------------- helpScan

  lemma ReleaseOwners(h: Smr, t: Tid, q: nat, pc: Pc)
    requires Owners(h) && t in h.pcs && q < |h.recs| && h.recs[q].owner == Some(t)
    requires forall p: nat :: Owns(pc, p) <==> Owns(h.pcs[t], p) && p != q
    ensures Owners(At(Release(h, q), t, pc))
  {
    var h' := At(Release(h, q), t, pc);
    forall p: nat | Owns(pc, p) ensures p < |h'.recs| && h'.recs[p].owner == Some(t) {
      assert Owns(h.pcs[t], p);
    }
    forall p: nat | p < |h'.recs| && h'.recs[p].owner == Some(t) ensures Owns(pc, p) {
      assert Owns(h.pcs[t], p);
    }
    OwnersMove(h, h', t, pc);
  }

  lemma ReleaseKeepsInv(h: Smr, t: Tid, q: nat, pc: Pc)
    requires Inv(h) && t in h.pcs && q < |h.recs| && Owns(h.pcs[t], q)
    requires forall p: nat :: Owns(pc, p) <==> Owns(h.pcs[t], p) && p != q
    requires !h.pcs[t].Push? && !h.pcs[t].PushCas? && !pc.Push? && !pc.PushCas? && !pc.Scan? && !pc.Sweep?
    requires PcOk(h, pc)
    ensures Inv(At(Release(h, q), t, pc))
  {
    var h' := At(Release(h, q), t, pc);
    PushingSame(h.pcs, t, pc);
    PendingSame(h.recs, q, h'.recs[q]);
    ReleaseOwners(h, t, q, pc);
    SlotsSame(h, h');
    StepKeepsInv(h, h', t, pc);
  }

  lemma AdoptPending(recs: seq<Record>, recs': seq<Record>, r: nat, q: nat)
    requires r < |recs| && q < |recs| && r != q && |recs[q].retired| > 0
    requires var theirs := recs[q].retired;
             recs' == recs[q := recs[q].(retired := theirs[..|theirs| - 1])]
                 [r := recs[r].(retired := recs[r].retired + [theirs[|theirs| - 1]])]
    ensures Pending(recs') == Pending(recs)
  {
    var theirs := recs[q].retired;
    var a := theirs[|theirs| - 1];
    var drained := recs[q := recs[q].(retired := theirs[..|theirs| - 1])];
    MultisetPop(theirs);
    assert drained[q := recs[q]] == recs;
    hide Pending;
    PendingPlus(drained, q, recs[q], a);
    PendingPlus(drained, r, recs'[r], a);
  }

  /** Moving one orphaned node between two lists leaves the total unchanged. */
  lemma AdoptFrame(h: Smr, h': Smr, r: nat, q: nat)
    requires r < |h.recs| && q < |h.recs| && r != q && |h.recs[q].retired| > 0
    requires Slots(h) && SafeNames(h) && Conserved(h) && h'.k == h.k
    requires var theirs := h.recs[q].retired;
             var a := theirs[|theirs| - 1];
             h'.recs == h.recs[q := h.recs[q].(retired := theirs[..|theirs| - 1])]
                 [r := h.recs[r].(retired := h.recs[r].retired + [a])]
    requires h'.retiredLog == h.retiredLog && h'.freedLog == h.freedLog
    ensures forall p {:trigger h'.recs[p]} :: 0 <= p < |h.recs| ==>
              h'.recs[p].active == h.recs[p].active && h'.recs[p].owner == h.recs[p].owner
                  && (p != r && p != q ==> h'.recs[p] == h.recs[p])
    ensures Pending(h'.recs) == Pending(h.recs)
    ensures Slots(h') && SafeNames(h') && HeldStep(h, h') && Conserved(h')
  {
    AdoptPending(h.recs, h'.recs, r, q);
    AdoptRecs(h.recs, h'.recs, r, q);
    ConservedSame(h, h');
    hide Pending, SafeNames, HeldStep, Slots, Conserved;
    SlotsSame(h, h');
  }

  lemma AdoptRecs(recs: seq<Record>, recs': seq<Record>, r: nat, q: nat)
    requires r < |recs| && q < |recs| && r != q && |recs[q].retired| > 0
    requires var theirs := recs[q].retired;
             recs' == recs[q := recs[q].(retired := theirs[..|theirs| - 1])]
                 [r := recs[r].(retired := recs[r].retired + [theirs[|theirs| - 1]])]
    ensures |recs'| == |recs|
    ensures forall p {:trigger recs'[p]} :: 0 <= p < |recs| ==>
              && recs'[p].active == recs[p].active && recs'[p].owner == recs[p].owner
              && recs'[p].slots == recs[p].slots && recs'[p].safe == recs[p].safe
              && (p != r && p != q ==> recs'[p] == recs[p])
  {
  }

  lemma AdoptOthers(h: Smr, h': Smr, t: Tid, r: nat, q: nat)
    requires Owners(h) && t in h.pcs && Owns(h.pcs[t], r) && Owns(h.pcs[t], q) && r < |h.recs| && q < |h.recs|
    requires |h'.recs| == |h.recs|
    requires forall p {:trigger h'.recs[p]} :: 0 <= p < |h.recs| && p != r && p != q ==> h'.recs[p] == h.recs[p]
    ensures OthersLists(h, h', t)
  {
  }

  function Adopted(h: Smr, t: Tid, r: nat, q: nat): Smr
    requires r < |h.recs| && q < |h.recs| && r != q && |h.recs[q].retired| > 0
    reads {}
  {
    var theirs := h.recs[q].retired;
    var a := theirs[|theirs| - 1];
    var recs := h.recs[q := h.recs[q].(retired := theirs[..|theirs| - 1])]
        [r := h.recs[r].(retired := h.recs[r].retired + [a])];
    At(h.(recs := recs), t, Check(r, Helper(q)))
  }

  lemma AdoptKeepsInv(h: Smr, t: Tid)
    requires Inv(h) && t in h.pcs && h.pcs[t].Take? && PcOk(h, h.pcs[t])
    requires h.recs[h.pcs[t].q].retired != []
    ensures Inv(HelpStep(h, t))
    ensures Pending(HelpStep(h, t).recs) == Pending(h.recs)
  {
    hide ScansSee, Conserved, SafeNames, HeldStep, OthersLists, Owners;
    var Take(r, q) := h.pcs[t];
    var h' := Adopted(h, t, r, q);
    assert HelpStep(h, t) == h';
    AdoptFrame(h, h', r, q);
    AdoptOthers(h, h', t, r, q);
    QuietKeepsInv(h, h', t, Check(r, Helper(q)));
  }

  lemma HelpTryKeepsInv(h: Smr, t: Tid)
    requires Inv(h) && t in h.pcs && PcOk(h, h.pcs[t]) && h.pcs[t].Help?
    ensures Inv(HelpStep(h, t))
    ensures Pending(HelpStep(h, t).recs) == Pending(h.recs)
  {
    hide ScansSee, Conserved, SafeNames, Owners;
    var Help(r, at) := h.pcs[t];
    if at >= 0 && at != r && !h.recs[at].active {
      assert HelpStep(h, t) == At(Claim(h, t, at), t, Take(r, at));
      ClaimKeepsInv(h, t, at, Take(r, at));
      PendingSame(h.recs, at, HelpStep(h, t).recs[at]);
    } else {
      var pc := if at < 0 then Ready(r) else Help(r, at - 1);
      assert HelpStep(h, t) == At(h, t, pc);
      MoveKeepsInv(h, t, pc);
    }
  }

  lemma HelpReleaseKeepsInv(h: Smr, t: Tid)
    requires Inv(h) && t in h.pcs && PcOk(h, h.pcs[t]) && h.pcs[t].Take?
    requires h.recs[h.pcs[t].q].retired == []
    ensures Inv(HelpStep(h, t))
    ensures Pending(HelpStep(h, t).recs) == Pending(h.recs)
  {
    var Take(r, q) := h.pcs[t];
    assert HelpStep(h, t) == At(Release(h, q), t, Help(r, q - 1));
    ReleaseKeepsInv(h, t, q, Help(r, q - 1));
    PendingSame(h.recs, q, HelpStep(h, t).recs[q]);
  }

  lemma HelpKeepsInv(h: Smr, t: Tid)
    requires Inv(h) && t in h.pcs && PcOk(h, h.pcs[t])
    requires h.pcs[t].HelpHead? || h.pcs[t].Help? || h.pcs[t].Take?
    ensures Inv(HelpStep(h, t))
    ensures Pending(HelpStep(h, t).recs) == Pending(h.recs)
  {
    match h.pcs[t]
    case HelpHead(r) => MoveKeepsInv(h, t, Help(r, |h.recs| - 1));
    case Help(_, _) => HelpTryKeepsInv(h, t);
    case Take(_, q) =>
      if h.recs[q].retired == [] {
        HelpReleaseKeepsInv(h, t);
      } else {
        AdoptKeepsInv(h, t);
      }
  }

  // ---------------------------------------------------------------- retire of a record

  lemma LeaveSlotKeepsInv(h: Smr, t: Tid)
    requires Inv(h) && t in h.pcs && PcOk(h, h.pcs[t]) && h.pcs[t].Leave? && h.pcs[t].slot < h.k
    ensures Inv(LeaveStep(h, t))
  {
    hide ScansSee, Conserved, SafeNames, Owners;
    var Leave(r, slot) := h.pcs[t];
    var cleared := SetSlot(h, r, slot, NULL);
    assert LeaveStep(h, t) == At(cleared, t, Leave(r, slot + 1));
    SetSlotKeepsInv(h, t, r, slot, NULL);
    MoveKeepsInv(cleared, t, Leave(r, slot + 1));
  }

  lemma LeaveKeepsInv(h: Smr, t: Tid)
    requires Inv(h) && t in h.pcs && PcOk(h, h.pcs[t]) && (h.pcs[t].Ready? || h.pcs[t].Leave?)
    ensures Inv(LeaveStep(h, t))
  {
    match h.pcs[t]
    case Ready(r) => MoveKeepsInv(h, t, Leave(r, 0));
    case Leave(r, slot) =>
      if slot < h.k {
        LeaveSlotKeepsInv(h, t);
      } else {
        ReleaseKeepsInv(h, t, r, NoRecord);
      }
  }
}
