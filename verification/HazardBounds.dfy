/**
 * How much garbage there can be: every retire list stays below R = 1.25 * H * K, with
 * H records counted and K slots each, except for the one node being retired.
 */
module HazardBounds {
  import opened Words
  import opened HazardPointers
  import opened HazardSafety
  import opened HazardRuns

  /** The holder of record q is between appending to q's list and the end of the scan that may follow. */
  predicate Mid(h: Smr, q: nat)
    requires q < |h.recs|
    reads {}
  {
    var o := h.recs[q].owner;
    o.Some? && o.value in h.pcs && Reclaiming(h.pcs[o.value]) && RecOf(h.pcs[o.value]) == Some(q)
  }

  function Over(h: Smr, q: nat): nat
    requires q < |h.recs|
    reads {}
  {
    if Mid(h, q) then 1 else 0
  }

  /** The list of q is below R, not counting the node being retired. */
  predicate Bound(h: Smr, q: nat)
    requires q < |h.recs|
    reads {}
  {
    4 * (|h.recs[q].retired| - Over(h, q)) < 5 * (h.count * h.k)
  }

  /** What a running scan knows of its list and of the set it collects. */
  predicate PassOk(h: Smr, pc: Pc)
    requires PcOk(h, pc)
    reads {}
  {
    match pc
    case Head(p) => Triggered(h, p) && |h.recs[p.r].retired| == p.size
    case Scan(p, at, slot) =>
      && Triggered(h, p) && |h.recs[p.r].retired| == p.size
      && |p.live| <= if at < 0 then p.top * h.k else (p.top - 1 - at) * h.k + slot
    case Sweep(p, iter) =>
      && Triggered(h, p) && |h.recs[p.r].retired| <= p.size
      && |p.live| <= p.top * h.k
      && (forall i :: 0 <= i < iter ==> Word(h.recs[p.r].retired[i], false) in p.live)
    case _ => true
  }

  predicate Triggered(h: Smr, p: Pass)
    reads {}
  {
    4 * p.size >= 5 * (p.quota * h.k)
  }

  ghost predicate Bounds(h: Smr)
    requires Shape(h)
    reads {}
  {
    && (forall q :: 0 <= q < |h.recs| ==> Bound(h, q))
    && (forall t :: t in h.pcs ==> PassOk(h, h.pcs[t]))
  }

  // ---------------------------------------------------------------- a step of t, seen from the other lists

  lemma MoreCounted(k: nat, n: nat, n': nat)
    requires n <= n'
    ensures n * k <= n' * k
  {
    assert (n' - n) * k >= 0;
  }

  /** A step of t does to records it neither holds nor gains nothing that matters here. */
  ghost predicate Elsewhere(h: Smr, h': Smr, t: Tid)
    reads {}
  {
    && t in h.pcs && t in h'.pcs && h'.pcs == h.pcs[t := h'.pcs[t]]
    && h'.k == h.k && h.count <= h'.count && |h.recs| <= |h'.recs|
    && (forall q {:trigger h'.recs[q]} :: 0 <= q < |h.recs| && h.recs[q].owner != Some(t) ==>
         h'.recs[q].retired == h.recs[q].retired)
    && (forall q {:trigger h'.recs[q]} :: |h.recs| <= q < |h'.recs| ==> h'.recs[q].owner == Some(t))
  }

  lemma SameOwner(h: Smr, h': Smr, t: Tid, q: nat)
    requires Owners(h) && Owners(h') && Elsewhere(h, h', t) && q < |h.recs|
    requires h.recs[q].owner != Some(t) && h'.recs[q].owner != Some(t)
    ensures h'.recs[q].owner == h.recs[q].owner && Mid(h', q) == Mid(h, q)
  {
    if h.recs[q].owner.Some? {
      assert Owns(h'.pcs[h.recs[q].owner.value], q);
    }
    if h'.recs[q].owner.Some? {
      assert Owns(h.pcs[h'.recs[q].owner.value], q);
    }
  }

  lemma OthersPass(h: Smr, h': Smr, t: Tid, u: Tid)
    requires Shape(h) && Shape(h') && Owners(h) && Elsewhere(h, h', t) && u in h.pcs && u != t && PassOk(h, h.pcs[u])
    ensures PassOk(h', h'.pcs[u])
  {
    var pc := h.pcs[u];
    if pc.Head? || pc.Scan? || pc.Sweep? {
      assert Owns(pc, pc.p.r);
      assert h'.recs[pc.p.r].retired == h.recs[pc.p.r].retired;
    }
  }

  lemma FrameBounds(h: Smr, h': Smr, t: Tid)
    requires Shape(h) && Shape(h') && Owners(h) && Owners(h') && Bounds(h) && Elsewhere(h, h', t)
    requires PassOk(h', h'.pcs[t])
    requires forall q {:trigger h'.recs[q]} ::
               0 <= q < |h'.recs| && (h'.recs[q].owner == Some(t) || (q < |h.recs| && h.recs[q].owner == Some(t))) ==>
                   Bound(h', q)
    ensures Bounds(h')
  {
    forall u | u in h'.pcs ensures PassOk(h', h'.pcs[u]) {
      if u != t { OthersPass(h, h', t, u); }
    }
    MoreCounted(h.k, h.count, h'.count);
    forall q | 0 <= q < |h'.recs| ensures Bound(h', q) {
      if h'.recs[q].owner != Some(t) && h.recs[q].owner != Some(t) {
        SameOwner(h, h', t, q);
        assert Bound(h, q);
      }
    }
  }

  // ---------------------------------------------------------------- the scan itself

  lemma {:induction false} DistinctInSet(s: seq<Addr>, live: set<Word>)
    requires forall i :: 0 <= i < |s| ==> Word(s[i], false) in live
    requires forall i, j :: 0 <= i < j < |s| ==> s[i] != s[j]
    ensures |s| <= |live|
  {
    if s != [] {
      var n := |s| - 1;
      DistinctInSet(s[..n], live - {Word(s[n], false)});
    }
  }

  lemma NoRepeats(h: Smr, q: nat)
    requires Conserved(h) && q < |h.recs|
    ensures forall i, j :: 0 <= i < j < |h.recs[q].retired| ==> h.recs[q].retired[i] != h.recs[q].retired[j]
  {
    var s := h.recs[q].retired;
    forall i, j | 0 <= i < j < |s| ensures s[i] != s[j] {
      PendingHas(h.recs, q, s[i]);
      TwiceIsTwo(s, i, j);
    }
  }

  /** After a full sweep the list holds at most one node per slot walked. */
  lemma SweptSize(h: Smr, p: Pass, iter: nat)
    requires Shape(h) && Conserved(h) && PcOk(h, Sweep(p, iter)) && PassOk(h, Sweep(p, iter))
    requires iter >= |h.recs[p.r].retired|
    ensures |h.recs[p.r].retired| <= p.top * h.k <= h.count * h.k
    ensures 4 * |h.recs[p.r].retired| < 5 * (h.count * h.k)
  {
    NoRepeats(h, p.r);
    DistinctInSet(h.recs[p.r].retired, p.live);
    MoreCounted(h.k, p.top, h.count);
    MoreCounted(h.k, 1, h.count);
  }

  // ---------------------------------------------------------------- every step keeps the bounds

  lemma StepElsewhere(h: Smr, h': Smr, t: Tid)
    requires Next(h, h', t) && Owners(h)
    ensures Elsewhere(h, h', t)
  {
    hide Owners, Pending, HandedUp, SwapPop, ShouldScan, Victim, Slots;
    forall q | 0 <= q < |h.recs| && h.recs[q].owner != Some(t)
      ensures q < |h'.recs| && h'.recs[q].retired == h.recs[q].retired
    {
      ListChange(h, h', t, q);
      OwnerOf(h, t, q);
    }
  }

  lemma OwnerOf(h: Smr, t: Tid, q: nat)
    requires Owners(h) && t in h.pcs && q < |h.recs|
    ensures Owns(h.pcs[t], q) <==> h.recs[q].owner == Some(t)
  {
    var o := Owns(h.pcs[t], q);
  }

  /** A list that did not grow, in a record whose holder did not finish. */
  lemma OwnSame(h: Smr, h': Smr, q: nat)
    requires q < |h.recs| && q < |h'.recs| && h'.k == h.k && h.count <= h'.count
    requires Bound(h, q) && |h'.recs[q].retired| <= |h.recs[q].retired| && (Mid(h, q) ==> Mid(h', q))
    ensures Bound(h', q)
  {
    MoreCounted(h.k, h.count, h'.count);
  }

  /** What is left to show for a step of t: its own scan, and the records it holds before or after. */
  ghost predicate OwnOk(h: Smr, h': Smr, t: Tid)
    requires t in h'.pcs && PcOk(h', h'.pcs[t])
    reads {}
  {
    && PassOk(h', h'.pcs[t])
    && (forall q {:trigger h'.recs[q]} ::
         0 <= q < |h'.recs| && (h'.recs[q].owner == Some(t) || (q < |h.recs| && h.recs[q].owner == Some(t))) ==>
             Bound(h', q))
  }

  lemma AllocateOwn(h: Smr, t: Tid)
    requires Inv(h) && t in h.pcs && RecOf(h.pcs[t]).None? && PcOk(h, h.pcs[t]) && Inv(AllocateStep(h, t)) && Bounds(h)
    ensures OwnOk(h, AllocateStep(h, t), t)
  {
    hide Conserved, ScansSee, SafeNames;
    var h' := AllocateStep(h, t);
    forall q | 0 <= q < |h'.recs| && (h'.recs[q].owner == Some(t) || (q < |h.recs| && h.recs[q].owner == Some(t)))
      ensures Bound(h', q)
    {
      if q < |h.recs| {
        OwnerOf(h, t, q);
        OwnSame(h, h', q);
      } else {
        MoreCounted(h.k, 1, h'.count);
      }
    }
  }

  /** Steps that leave the lists alone, outside any scan. */
  lemma ListsSameOwn(h: Smr, h': Smr, t: Tid)
    requires Inv(h) && Inv(h') && t in h.pcs && t in h'.pcs && Bounds(h)
    requires |h'.recs| == |h.recs| && h'.k == h.k && h'.count == h.count && !Reclaiming(h.pcs[t])
    requires !Reclaiming(h'.pcs[t])
    requires forall q {:trigger h'.recs[q]} :: 0 <= q < |h.recs| ==> h'.recs[q].retired == h.recs[q].retired
    requires forall q {:trigger h'.recs[q]} :: 0 <= q < |h.recs| && h'.recs[q].owner == Some(t) ==>
               h.recs[q].owner == Some(t) || h.recs[q].owner == None
    ensures OwnOk(h, h', t)
  {
    hide Conserved, ScansSee, SafeNames, Owners;
    forall q | 0 <= q < |h'.recs| && (h'.recs[q].owner == Some(t) || (q < |h.recs| && h.recs[q].owner == Some(t)))
      ensures Bound(h', q)
    {
      OwnSame(h, h', q);
    }
  }

  lemma RetireNodeOwn(h: Smr, t: Tid, r: nat, a: Addr)
    requires Inv(h) && t in h.pcs && h.pcs[t] == Ready(r) && r < |h.recs| && Inv(RetireNode(h, t, r, a)) && Bounds(h)
    ensures OwnOk(h, RetireNode(h, t, r, a), t)
  {
    hide Conserved, ScansSee, SafeNames;
    var h' := RetireNode(h, t, r, a);
    OwnerOf(h, t, r);
    forall q | 0 <= q < |h'.recs| && (h'.recs[q].owner == Some(t) || h.recs[q].owner == Some(t)) ensures Bound(h', q) {
      OwnerOf(h, t, q);
      assert Bound(h, q);
    }
  }

  /** The records held during and after a step of a scan are the same. */
  lemma ScanHolds(h: Smr, t: Tid, q: nat)
    requires Owners(h) && Slots(h) && t in h.pcs && Reclaiming(h.pcs[t]) && PcOk(h, h.pcs[t]) && q < |h.recs|
    ensures var h' := ScanStep(h, t);
            && |h'.recs| == |h.recs| && h'.recs[q].owner == h.recs[q].owner && h'.count == h.count && h'.k == h.k
            && (h.recs[q].owner == Some(t) && q != RecOf(h.pcs[t]).value ==>
                 !Mid(h, q) && h'.recs[q].retired == h.recs[q].retired)
  {
    OwnerOf(h, t, q);
  }

  lemma ScanOwn(h: Smr, h': Smr, t: Tid)
    requires Inv(h) && t in h.pcs && Reclaiming(h.pcs[t]) && PcOk(h, h.pcs[t]) && Bounds(h)
    requires h' == ScanStep(h, t) && Inv(h')
    requires t in h'.pcs && PassOk(h', h'.pcs[t])
    requires var r := RecOf(h.pcs[t]).value; (Mid(h', r) && |h'.recs[r].retired| <= |h.recs[r].retired|) || Bound(h', r)
    ensures OwnOk(h, h', t)
  {
    forall q | 0 <= q < |h'.recs| && (h'.recs[q].owner == Some(t) || (q < |h.recs| && h.recs[q].owner == Some(t)))
      ensures Bound(h', q)
    {
      ScanHolds(h, t, q);
      if !Bound(h', RecOf(h.pcs[t]).value) || q != RecOf(h.pcs[t]).value {
        OwnSame(h, h', q);
      }
    }
  }

  /** The case of a scan that goes on, or ends with its list below R. */
  ghost predicate ScanGoal(h: Smr, h': Smr, t: Tid)
    requires t in h.pcs && RecOf(h.pcs[t]).Some? && RecOf(h.pcs[t]).value < |h.recs| && |h'.recs| == |h.recs|
    requires t in h'.pcs && PcOk(h', h'.pcs[t])
    reads {}
  {
    var r := RecOf(h.pcs[t]).value;
    PassOk(h', h'.pcs[t]) && ((Mid(h', r) && |h'.recs[r].retired| <= |h.recs[r].retired|) || Bound(h', r))
  }

  lemma CheckGoal(h: Smr, h': Smr, t: Tid)
    requires Inv(h) && t in h.pcs && h.pcs[t].Check? && PcOk(h, h.pcs[t]) && h' == ScanStep(h, t)
    requires t in h'.pcs && PcOk(h', h'.pcs[t])
    ensures |h'.recs| == |h.recs| && ScanGoal(h, h', t)
  {
    hide Conserved, ScansSee, SafeNames;
    OwnerOf(h, t, h.pcs[t].r);
  }

  lemma HeadGoal(h: Smr, h': Smr, t: Tid)
    requires Inv(h) && t in h.pcs && h.pcs[t].Head? && PcOk(h, h.pcs[t]) && PassOk(h, h.pcs[t]) && h' == ScanStep(h, t)
    requires t in h'.pcs && PcOk(h', h'.pcs[t])
    ensures |h'.recs| == |h.recs| && ScanGoal(h, h', t)
  {
    hide Conserved, ScansSee, SafeNames;
    OwnerOf(h, t, h.pcs[t].p.r);
  }

  lemma WalkCount(top: nat, at: int, k: nat)
    requires 0 <= at < top
    ensures (top - 1 - at) * k + k == (top - 1 - (at - 1)) * k
    ensures at == 0 ==> (top - 1 - at) * k + k == top * k
  {
  }

  lemma ScanReadGoal(h: Smr, h': Smr, t: Tid)
    requires Inv(h) && t in h.pcs && h.pcs[t].Scan? && PcOk(h, h.pcs[t]) && PassOk(h, h.pcs[t]) && h' == ScanStep(h, t)
    requires t in h'.pcs && PcOk(h', h'.pcs[t])
    ensures |h'.recs| == |h.recs| && ScanGoal(h, h', t)
  {
    hide Conserved, ScansSee, SafeNames;
    var Scan(p, at, slot) := h.pcs[t];
    OwnerOf(h, t, p.r);
    if at >= 0 && slot == h.k {
      WalkCount(p.top, at, h.k);
    }
  }

  lemma SweepGoal(h: Smr, h': Smr, t: Tid)
    requires Inv(h) && t in h.pcs && h.pcs[t].Sweep? && PcOk(h, h.pcs[t]) && PassOk(h, h.pcs[t]) && h' == ScanStep(h, t)
    requires t in h'.pcs && PcOk(h', h'.pcs[t])
    ensures |h'.recs| == |h.recs| && ScanGoal(h, h', t)
  {
    var Sweep(p, iter) := h.pcs[t];
    OwnerOf(h, t, p.r);
    if iter >= |h.recs[p.r].retired| {
      SweptSize(h, p, iter);
    }
    hide Inv, Conserved, ScansSee, SafeNames, Owners;
  }

  lemma ScanStepBounds(h: Smr, h': Smr, t: Tid)
    requires Inv(h) && t in h.pcs && Reclaiming(h.pcs[t]) && PcOk(h, h.pcs[t]) && Bounds(h)
    requires h' == ScanStep(h, t) && Inv(h') && t in h'.pcs && PcOk(h', h'.pcs[t])
    ensures OwnOk(h, h', t)
  {
    hide Inv, ScanStep, OwnOk, Owners, SafeNames, ScansSee, Conserved;
    assert PassOk(h, h.pcs[t]);
    match h.pcs[t]
    case Check(_, _) => CheckGoal(h, h', t); ScanOwn(h, h', t);
    case Head(_) => HeadGoal(h, h', t); ScanOwn(h, h', t);
    case Scan(_, _, _) => ScanReadGoal(h, h', t); ScanOwn(h, h', t);
    case Sweep(_, _) => SweepGoal(h, h', t); ScanOwn(h, h', t);
  }

  lemma HelpOwn(h: Smr, h': Smr, t: Tid)
    requires Inv(h) && t in h.pcs && PcOk(h, h.pcs[t]) && (h.pcs[t].HelpHead? || h.pcs[t].Help? || h.pcs[t].Take?)
    requires Bounds(h)
    requires h' == HelpStep(h, t) && Inv(h')
    ensures t in h'.pcs && PcOk(h', h'.pcs[t]) && OwnOk(h, h', t)
  {
    hide Conserved, ScansSee, SafeNames;
    var pc := h.pcs[t];
    if pc.Take? && h.recs[pc.q].retired != [] {
      forall q | 0 <= q < |h'.recs|
               && (h'.recs[q].owner == Some(t) || (q < |h.recs| && h.recs[q].owner == Some(t)))
        ensures Bound(h', q)
      {
        OwnerOf(h, t, q);
        assert Bound(h, q);
      }
    } else {
      ListsSameOwn(h, h', t);
    }
  }

  lemma StepBounds(h: Smr, h': Smr, t: Tid)
    requires Inv(h) && Next(h, h', t) && Bounds(h)
    ensures Inv(h') && Bounds(h')
  {
    NextKeepsInv(h, h', t);
    StepElsewhere(h, h', t);
    assert PcOk(h', h'.pcs[t]);
    StepOwn(h, h', t);
    hide Next, Elsewhere, SafeNames, ScansSee, Conserved;
    FrameBounds(h, h', t);
  }

  lemma StepOwn(h: Smr, h': Smr, t: Tid)
    requires Inv(h) && Next(h, h', t) && Bounds(h) && Inv(h') && t in h'.pcs && PcOk(h', h'.pcs[t])
    ensures OwnOk(h, h', t)
  {
    hide Inv, Bounds, OwnOk, AllocateStep, ScanStep, HelpStep, RetireNode;
    var pc := h.pcs[t];
    if RecOf(pc).None? && h' == AllocateStep(h, t) {
      AllocateOwn(h, t);
    } else if Reclaiming(pc) && h' == ScanStep(h, t) {
      ScanStepBounds(h, h', t);
    } else if (pc.HelpHead? || pc.Help? || pc.Take?) && h' == HelpStep(h, t) {
      HelpOwn(h, h', t);
    } else if pc.Ready? && exists a: Addr :: a !in Pending(h.recs) && h' == RetireNode(h, t, pc.r, a) {
      var a: Addr :| a !in Pending(h.recs) && h' == RetireNode(h, t, pc.r, a);
      RetireNodeOwn(h, t, pc.r, a);
    } else {
      QuietOwn(h, h', t);
    }
  }

  lemma QuietOwn(h: Smr, h': Smr, t: Tid)
    requires Inv(h) && Next(h, h', t) && Bounds(h) && Inv(h') && t in h'.pcs && PcOk(h', h'.pcs[t])
    requires h.pcs[t].Ready? || h.pcs[t].Leave?
    requires forall a: Addr :: a !in Pending(h.recs) && h.pcs[t].Ready? ==> h' != RetireNode(h, t, h.pcs[t].r, a)
    ensures OwnOk(h, h', t)
  {
    hide Inv, Bounds, OwnOk, HandedUp, Pending;
    ListsSameOwn(h, h', t);
  }

  lemma {:induction false} RunBounds(r: Run, n: nat)
    requires IsRun(r) && n < |r.states|
    ensures Inv(r.states[n]) && Bounds(r.states[n])
  {
    hide Inv, Next, Init, Bounds;
    RunInv(r, n);
    if n == 0 {
      NoRecordsNoGarbage(r.states[0]);
    } else {
      RunBounds(r, n - 1);
      assert Next(r.states[n - 1], r.states[n - 1 + 1], r.actors[n - 1]);
      StepBounds(r.states[n - 1], r.states[n], r.actors[n - 1]);
    }
  }

  lemma NoRecordsNoGarbage(h: Smr)
    requires Init(h) && Inv(h)
    ensures Bounds(h)
  {
  }

  // ---------------------------------------------------------------- the theorems

  /**
   * Each retire list is below 1.25 * H * K whenever its holder is not in the middle of
   * a retireNode or of adopting a node, and over it by at most that one node otherwise.
   */
  lemma ListBelowR(r: Run, n: nat, q: nat)
    requires IsRun(r) && n < |r.states| && q < |r.states[n].recs|
    ensures var h := r.states[n];
            && 4 * (|h.recs[q].retired| - 1) < 5 * (h.count * h.k)
            && (!Mid(h, q) ==> 4 * |h.recs[q].retired| < 5 * (h.count * h.k))
  {
    RunBounds(r, n);
    hide IsRun;
    assert Bound(r.states[n], q);
  }

  lemma PendingCount(recs: seq<Record>)
    requires recs != []
    ensures |Pending(recs)| == |Pending(recs[..|recs| - 1])| + |recs[|recs| - 1].retired|
  {
  }

  lemma {:induction false} PendingBelow(recs: seq<Record>, b: int)
    requires forall q {:trigger recs[q]} :: 0 <= q < |recs| ==> 4 * |recs[q].retired| <= b
    ensures 4 * |Pending(recs)| <= b * |recs|
  {
    if recs != [] {
      var n := |recs| - 1;
      PendingCount(recs);
      PendingBelow(recs[..n], b);
      hide Pending;
      assert 4 * |recs[n].retired| <= b;
      assert b * |recs| == b * n + b;
    }
  }

  lemma Square(a: nat, n: nat, c: nat, k: nat)
    requires n <= c && 0 < n && 4 * a <= (5 * (c * k) - 1) * n
    ensures 4 * a < 5 * (c * k) * c
  {
    MoreCounted(5 * (c * k), n, c);
    assert (5 * (c * k) - 1) * n == 5 * (c * k) * n - n;
  }

  /** All unreclaimed garbage together is below 1.25 * K * H * H while nobody is mid-retire. */
  lemma GarbageBelow(r: Run, n: nat)
    requires IsRun(r) && n < |r.states| && |r.states[n].recs| > 0
    requires forall q :: 0 <= q < |r.states[n].recs| ==> !Mid(r.states[n], q)
    ensures var h := r.states[n]; 4 * |Pending(h.recs)| < 5 * (h.count * h.k) * h.count
  {
    RunBounds(r, n);
    hide IsRun;
    var h := r.states[n];
    forall q | 0 <= q < |h.recs| ensures 4 * |h.recs[q].retired| <= 5 * (h.count * h.k) - 1 {
      assert Bound(h, q);
    }
    PendingBelow(h.recs, 5 * (h.count * h.k) - 1);
    Square(|Pending(h.recs)|, |h.recs|, h.count, h.k);
  }

  /** ... and in every state whatever, by at most one node a record more. */
  lemma GarbageBelowAlways(r: Run, n: nat)
    requires IsRun(r) && n < |r.states|
    ensures var h := r.states[n]; 4 * |Pending(h.recs)| <= (5 * (h.count * h.k) + 3) * |h.recs|
  {
    RunBounds(r, n);
    hide IsRun;
    var h := r.states[n];
    forall q | 0 <= q < |h.recs| ensures 4 * |h.recs[q].retired| <= 5 * (h.count * h.k) + 3 {
      assert Bound(h, q);
    }
    PendingBelow(h.recs, 5 * (h.count * h.k) + 3);
  }

  // ---------------------------------------------------------------- what a triggered scan frees

  predicate InPass(pc: Pc)
    reads {}
  {
    pc.Head? || pc.Scan? || pc.Sweep?
  }

  /** From the check at i to state m, t is in the one scan that the check triggered. */
  ghost predicate OneScan(r: Run, t: Tid, i: nat, m: nat)
    reads {}
  {
    && i < m < |r.states| && t in r.states[i].pcs && r.states[i].pcs[t].Check?
    && (forall x {:trigger r.states[x].pcs} :: i < x <= m ==> t in r.states[x].pcs && InPass(r.states[x].pcs[t]))
  }

  /** So far the pass has deleted exactly what its list has lost. */
  ghost predicate FreedSince(h: Smr, t: Tid, size: nat, quota: nat, list: multiset<Addr>, log: multiset<Addr>)
    reads {}
  {
    && t in h.pcs && InPass(h.pcs[t])
    && var p := h.pcs[t].p;
       && p.r < |h.recs| && p.size == size && p.quota == quota
       && multiset(h.recs[p.r].retired) <= list && log + (list - multiset(h.recs[p.r].retired)) <= h.freedLog
  }

  lemma PassIsScan(h: Smr, h': Smr, t: Tid)
    requires Next(h, h', t) && InPass(h.pcs[t])
    ensures Slots(h) && PcOk(h, h.pcs[t]) && h' == ScanStep(h, t)
  {
  }

  lemma SweptAway(s: seq<Addr>, i: nat, list: multiset<Addr>, log: multiset<Addr>, freed: multiset<Addr>)
    requires i < |s| && multiset(s) <= list && log + (list - multiset(s)) <= freed
    ensures multiset(SwapPop(s, i)) <= list && log + (list - multiset(SwapPop(s, i))) <= freed + multiset{s[i]}
  {
    MultisetSwapPop(s, i);
    hide SwapPop;
    var m, m' := multiset(s), multiset(SwapPop(s, i));
    assert list - m' == (list - m) + multiset{s[i]};
  }

  lemma PassStep(h: Smr, h': Smr, t: Tid, size: nat, quota: nat, list: multiset<Addr>, log: multiset<Addr>)
    requires Next(h, h', t) && FreedSince(h, t, size, quota, list, log)
    requires t in h'.pcs && InPass(h'.pcs[t])
    ensures FreedSince(h', t, size, quota, list, log) && h'.pcs[t].p.r == h.pcs[t].p.r
  {
    PassIsScan(h, h', t);
    hide Next, SwapPop;
    if Victim(h, t).Some? {
      SweptAway(h.recs[h.pcs[t].p.r].retired, h.pcs[t].iter, list, log, h.freedLog);
    }
  }

  lemma ElsePassStep(h: Smr, h': Smr, t: Tid, u: Tid, size: nat, quota: nat, list: multiset<Addr>, log: multiset<Addr>)
    requires Inv(h) && Next(h, h', u) && u != t && FreedSince(h, t, size, quota, list, log)
    ensures t in h'.pcs && h'.pcs[t] == h.pcs[t] && FreedSince(h', t, size, quota, list, log)
  {
    ListsAreOwned(h, h', u, h.pcs[t].p.r);
    assert Owns(h.pcs[t], h.pcs[t].p.r);
    assert Owners(h);
    FreedByVictim(h, h', u);
    StepElsewhere(h, h', u);
    hide Inv, Next, Victim, Owners, Owns;
  }

  lemma CheckStep(h: Smr, h': Smr, t: Tid)
    requires Inv(h) && Next(h, h', t) && h.pcs[t].Check? && t in h'.pcs && InPass(h'.pcs[t])
    ensures var r := h.pcs[t].r;
            && r < |h.recs|
            && FreedSince(h', t, |h.recs[r].retired|, h.count, multiset(h.recs[r].retired), h.freedLog)
            && h'.pcs[t].p.r == r
  {
    hide Inv;
  }

  lemma {:induction false} PassFrees(r: Run, t: Tid, i: nat, m: nat)
    requires IsRun(r) && OneScan(r, t, i, m) && r.actors[i] == t
    ensures var h, q := r.states[i], r.states[i].pcs[t].r;
            && q < |h.recs|
            && FreedSince(r.states[m], t, |h.recs[q].retired|, h.count, multiset(h.recs[q].retired), h.freedLog)
            && r.states[m].pcs[t].p.r == q
    decreases m
  {
    hide Inv, Next, Init, FreedSince, InPass;
    RunInv(r, m - 1);
    assert Next(r.states[m - 1], r.states[m - 1 + 1], r.actors[m - 1]);
    assert r.states[m].pcs == r.states[m].pcs;
    var h, h', u := r.states[m - 1], r.states[m], r.actors[m - 1];
    if m == i + 1 {
      CheckStep(h, h', t);
    } else {
      assert OneScan(r, t, i, m - 1);
      PassFrees(r, t, i, m - 1);
      assert InPass(h.pcs[t]);
      var s := r.states[i];
      var list := s.recs[s.pcs[t].r].retired;
      if u == t {
        PassStep(h, h', t, |list|, s.count, multiset(list), s.freedLog);
      } else {
        ElsePassStep(h, h', t, u, |list|, s.count, multiset(list), s.freedLog);
      }
    }
  }

  /**
   * A scan triggered by the threshold, with no allocate in between, deletes at least
   * H * K / 4 nodes of its list by the time its sweep is over.
   */
  lemma TriggeredScanFrees(r: Run, t: Tid, i: nat, j: nat)
    requires IsRun(r) && OneScan(r, t, i, j) && r.actors[i] == t
    requires r.states[j].pcs[t].Sweep? && r.states[j].pcs[t].p.r < |r.states[j].recs|
    requires r.states[j].pcs[t].iter >= |r.states[j].recs[r.states[j].pcs[t].p.r].retired|
    requires r.states[j].count == r.states[i].count
    ensures var q := r.states[i].pcs[t].r;
            && q < |r.states[i].recs| && q < |r.states[j].recs|
            && var before, left := multiset(r.states[i].recs[q].retired), multiset(r.states[j].recs[q].retired);
               left <= before && r.states[i].freedLog + (before - left) <= r.states[j].freedLog
               && 4 * |before - left| >= r.states[j].count * r.states[j].k
  {
    RunBounds(r, j);
    PassFrees(r, t, i, j);
    hide IsRun, OneScan;
    var h := r.states[j];
    var p := h.pcs[t].p;
    assert PassOk(h, h.pcs[t]);
    SweptSize(h, p, h.pcs[t].iter);
  }
}
