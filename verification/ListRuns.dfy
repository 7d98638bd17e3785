/**
 * Whole runs of the concurrent list: any number of threads, any interleaving. Each
 * operation takes effect at one of its own steps, and each answer was right at some
 * instant between its call and its return.
 */
module ListRuns {
  import opened Words
  import H = HazardPointers
  import opened ListMap
  import opened ListInv
  import opened ListFrame
  import opened ListQuiet
  import opened ListFind
  import opened ListAbs
  import opened ListSafety
  import opened ListEffects
  import opened ListTrace
  import opened ListWitness

  /** `actors[i]` takes the step from `states[i]` to `states[i + 1]`. */
  datatype Run = Run(states: seq<State>, actors: seq<Tid>)

  ghost predicate IsRun(r: Run)
    reads {}
  {
    && |r.states| == |r.actors| + 1
    && Init(r.states[0])
    && (forall i :: 0 <= i < |r.actors| ==> Next(r.states[i], r.states[i + 1], r.actors[i]))
  }

  ghost predicate AllInv(r: Run)
    reads {}
  {
    forall i :: 0 <= i < |r.states| ==> Inv(r.states[i])
  }

  lemma {:induction false} InvUpTo(r: Run, n: nat)
    requires IsRun(r) && n < |r.states|
    ensures Inv(r.states[n])
    ensures r.states[n].locals.Keys == r.states[0].locals.Keys
  {
    hide Inv, Next, Init;
    if n == 0 {
      InitInv(r.states[0]);
    } else {
      InvUpTo(r, n - 1);
      assert Next(r.states[n - 1], r.states[n - 1 + 1], r.actors[n - 1]);
      NextKeepsInv(r.states[n - 1], r.states[n], r.actors[n - 1]);
      OthersUnmoved(r.states[n - 1], r.states[n], r.actors[n - 1]);
    }
  }

  lemma RunInv(r: Run)
    requires IsRun(r)
    ensures AllInv(r)
    ensures forall i :: 0 <= i < |r.states| ==> r.states[i].locals.Keys == r.states[0].locals.Keys
  {
    hide Inv, IsRun;
    forall i | 0 <= i < |r.states| ensures Inv(r.states[i]) && r.states[i].locals.Keys == r.states[0].locals.Keys {
      InvUpTo(r, i);
    }
  }

  /**
   * No thread ever goes through freed memory, however the steps interleave: what it goes
   * through is allocated, and is a node that a slot of its own record protects, or that it
   * owes a step, or its own unpublished node, or the head.
   */
  lemma NoUseAfterFree(r: Run, i: nat, t: Tid)
    requires IsRun(r) && i < |r.states| && t in r.states[i].locals
    ensures t in r.states[i].smr.pcs
    ensures r.states[i].smr.pcs[t].Ready? && !Between(r.states[i].locals[t].at) ==>
              && OwnsRecord(r.states[i], t)
              && forall a :: a in Touched(r.states[i], r.states[i].locals[t]) ==>
                   a in r.states[i].heap && Covered(r.states[i].heap, r.states[i].head, Mine(r.states[i], t), t, a)
  {
    hide IsRun;
    RunInv(r);
    var s := r.states[i];
    assert s.locals.Keys == s.smr.pcs.Keys;
    if s.smr.pcs[t].Ready? && !Between(s.locals[t].at) {
      NeverTouchesFreed(s, t);
    }
  }

  /** In every state from i to j some slot of record q protects a, not always the same one. */
  ghost predicate HeldThroughout(r: Run, q: nat, a: Addr, i: nat, j: nat)
    reads {}
  {
    && i <= j < |r.states|
    && (forall m {:trigger r.states[m]} :: i <= m <= j ==>
          q < |r.states[m].smr.recs| && Holds(r.states[m].smr.recs[q], a))
  }

  /**
   * Addresses are handed out again, but not under a reader: as long as a record protects
   * an address, it is the same node, with the key, the value and the height it had, and a
   * mark once set stays.
   */
  lemma {:induction false} HeldIsSameNode(r: Run, q: nat, a: Addr, i: nat, j: nat)
    requires IsRun(r) && HeldThroughout(r, q, a, i, j)
    ensures forall m {:trigger r.states[m]} :: i <= m <= j ==> a in r.states[m].heap
    ensures var n, n' := r.states[i].heap[a], r.states[j].heap[a];
            && n'.key == n.key && n'.value == n.value && n'.height == n.height
            && (n.next.tag ==> n'.next == n.next) && (!n.stage.Private? ==> !n'.stage.Private?)
    decreases j
  {
    hide Inv, Next, Init, IsRun, Holds, Effect, HeapStep;
    RunInv(r);
    assert q < |r.states[j].smr.recs| && Holds(r.states[j].smr.recs[q], a);
    HeldIsAllocated(r.states[j], q, a);
    if i < j {
      assert HeldThroughout(r, q, a, i, j - 1);
      HeldIsSameNode(r, q, a, i, j - 1);
      StepsOf(r);
      assert Next(r.states[j - 1], r.states[j - 1 + 1], r.actors[j - 1]);
      StepKeepsNode(r.states[j - 1], r.states[j], r.actors[j - 1], a);
    }
  }

  lemma HeldIsAllocated(s: State, q: nat, a: Addr)
    requires Inv(s) && q < |s.smr.recs| && Holds(s.smr.recs[q], a)
    ensures a in s.heap
  {
    var k :| k in s.smr.recs[q].safe && H.Protects(s.smr.recs[q], k, a);
    assert HeldAllocated(s);
  }

  lemma StepKeepsNode(s: State, s': State, t: Tid, a: Addr)
    requires Inv(s) && Next(s, s', t) && a in s.heap && a in s'.heap
    ensures NodeStep(s.heap[a], s'.heap[a], t)
  {
    NextEffect(s, s', t);
  }

  predicate InTower(s: State, t: Tid)
    reads {}
  {
    t in s.locals && t in s.smr.pcs && s.locals[t].at.Tower? && s.smr.pcs[t].Ready?
  }

  lemma StepsOf(r: Run)
    requires IsRun(r)
    ensures |r.states| == |r.actors| + 1
    ensures forall i {:trigger r.actors[i]} :: 0 <= i < |r.actors| ==> Next(r.states[i], r.states[i + 1], r.actors[i])
  {
  }

  /** In no run does the index loop link a node: the head's links above level 0 never change. */
  lemma IndexNeverGrows(r: Run, n: nat)
    requires IsRun(r) && n < |r.states|
    ensures |r.states| == |r.actors| + 1 && |r.states[n].tower| == MAX_HEIGHT - 1
    ensures forall i :: 0 <= i < |r.states[n].tower| ==> r.states[n].tower[i] == MARKED_NULL
    ensures n < |r.actors| && InTower(r.states[n], r.actors[n]) ==> r.states[n + 1].heap == r.states[n].heap
  {
    hide Inv, Next, IsRun;
    RunInv(r);
    TowerClosed(r.states[n]);
    StepsOf(r);
    if n < |r.actors| && InTower(r.states[n], r.actors[n]) {
      TowerLinksNothing(r.states[n], r.states[n + 1], r.actors[n]);
    }
  }

  lemma TowerLinksNothing(s: State, s': State, t: Tid)
    requires Inv(s) && Next(s, s', t) && InTower(s, t)
    ensures s'.heap == s.heap
  {
    hide Inv;
    var top := TowerLeaves(s, s', t);
  }

  /** The exits of erase and insert that return straight from find. */
  predicate ReturnsEarly(l: Local)
    reads {}
  {
    l.at.Found? && ((l.op.Erase? && !l.helping && !l.at.match_) || (l.op.Insert? && l.node == 0 && l.at.match_))
  }

  /** t's record names nothing in the slots its call has used. */
  predicate LetsGo(s: State, t: Tid, op: Op)
    reads {}
  {
    HasRecord(s, t) && Cleared(s.smr.recs[s.smr.pcs[t].r], FirstSlot(op), LastSlot(op) + 1)
  }

  lemma OnlyTheseReturn(s: State, s': State, t: Tid)
    requires CanWork(s, t) && s' == Work(s, t) && !Between(s.locals[t].at) && !s.locals[t].at.Tower?
    requires t in s'.locals && s'.locals[t].at.Returned?
    ensures s.locals[t].at.Found? || s.locals[t].at.ClearSlot? || s.locals[t].at.FreeOwn?
  {
    hide H.SetSlot, H.Hold, H.RetireNode;
  }

  lemma FoundReturns(s: State, t: Tid)
    requires HasRecord(s, t) && s.locals[t].at.Found? && Fits(s.locals[t]) && DoFound(s, t).locals[t].at.Returned?
    ensures ReturnsEarly(s.locals[t]) && DoFound(s, t).smr == s.smr
  {
  }

  lemma ClearReturns(s: State, t: Tid)
    requires HasRecord(s, t) && OwnsRecord(s, t) && s.locals[t].at.ClearSlot? && s.locals[t].at.slot < 4
    requires SeenOk(s.heap, s.smr.recs, Mine(s, t), t, s.locals[t]) && DoClearSlot(s, t).locals[t].at.Returned?
    ensures LetsGo(DoClearSlot(s, t), t, s.locals[t].op)
  {
    hide H.HandedUp;
  }

  lemma FreeReturns(s: State, t: Tid)
    requires HasRecord(s, t) && OwnsRecord(s, t) && s.locals[t].at.FreeOwn?
    requires SeenOk(s.heap, s.smr.recs, Mine(s, t), t, s.locals[t])
    ensures LetsGo(DoFreeOwn(s, t), t, s.locals[t].op)
  {
  }

  lemma WorkReturns(s: State, s': State, t: Tid)
    requires Turn(s, t) && CanWork(s, t) && s' == Work(s, t) && !Between(s.locals[t].at) && !s.locals[t].at.Tower?
    requires t in s'.locals && s'.locals[t].at.Returned?
    ensures ReturnsEarly(s.locals[t]) || LetsGo(s', t, s.locals[t].op)
    ensures ReturnsEarly(s.locals[t]) ==> s'.smr == s.smr
  {
    OnlyTheseReturn(s, s', t);
    ReturnFacts(s.heap, s.head, s.smr.recs, Mine(s, t), t, s.locals[t]);
    hide Inv, ListOk, Turn, LetsGo, Fits, SeenOk, LocOk, DoFound, DoClearSlot, DoFreeOwn, Mine;
    WorkIs(s, t);
    hide Work;
    if s.locals[t].at.Found? {
      FoundReturns(s, t);
    } else if s.locals[t].at.ClearSlot? {
      ClearReturns(s, t);
    } else {
      FreeReturns(s, t);
    }
  }

  lemma WorkIs(s: State, t: Tid)
    requires CanWork(s, t)
    ensures s.locals[t].at.Found? ==> Work(s, t) == DoFound(s, t)
    ensures s.locals[t].at.ClearSlot? ==> Work(s, t) == DoClearSlot(s, t)
    ensures s.locals[t].at.FreeOwn? ==> Work(s, t) == DoFreeOwn(s, t)
  {
    hide DoFound, DoClearSlot, DoFreeOwn;
  }

  lemma ReturnFacts(h: Heap, head: Addr, recs: seq<H.Record>, rec: H.Record, t: Tid, l: Local)
    requires LocOk(h, head, recs, rec, t, l)
    ensures Fits(l) && SeenOk(h, recs, rec, t, l)
  {
  }

  lemma StepReturns(s: State, s': State, t: Tid)
    requires Inv(s) && Next(s, s', t) && !Between(s.locals[t].at) && t in s'.locals && s'.locals[t].at.Returned?
    ensures ReturnsEarly(s.locals[t]) || LetsGo(s', t, s.locals[t].op)
    ensures ReturnsEarly(s.locals[t]) ==> s'.smr == s.smr
  {
    hide Inv, Turn, Work, CanWork, LetsGo, ReturnsEarly, H.PcOk, H.Slots;
    if s.smr.pcs[t].Ready? {
      TurnOf(s, t);
      NewNodeIsInsert(s, t);
      if s.locals[t].at.Tower? {
        var top := TowerLeaves(s, s', t);
      } else if !s.locals[t].at.NewNode? {
        WorkReturns(s, s', t);
      }
    }
  }

  /**
   * A call returns with every hazard slot it has used cleared, except for an erase or an insert
   * that returns straight from its first find: that one leaves the slots as find set them.
   */
  lemma HazardsCleared(r: Run, n: nat, t: Tid)
    requires IsRun(r) && n < |r.actors| && r.actors[n] == t && n + 1 < |r.states|
    requires t in r.states[n].locals && t in r.states[n + 1].locals
    requires !Between(r.states[n].locals[t].at) && r.states[n + 1].locals[t].at.Returned?
    ensures var l := r.states[n].locals[t];
            if ReturnsEarly(l) then r.states[n + 1].smr == r.states[n].smr else LetsGo(r.states[n + 1], t, l.op)
  {
    hide Inv, Next, IsRun, ReturnsEarly, LetsGo;
    InvUpTo(r, n);
    StepOf(r, n);
    StepReturns(r.states[n], r.states[n + 1], t);
  }

  /** Publishing CASes less winning marks is the size of the map, in every reachable state. */
  lemma {:induction false} EntriesCount(r: Run, n: nat)
    requires IsRun(r) && n < |r.states|
    ensures AllInv(r)
    ensures r.states[n].pubs == r.states[n].wins + |Entries(r.states[n])|
  {
    hide Inv, Next, Init, AllInv, Entries, Publishes, Kills;
    RunInv(r);
    InvUpTo(r, n);
    var s' := r.states[n];
    if n == 0 {
      InitEntries(r);
    } else {
      var s, t := r.states[n - 1], r.actors[n - 1];
      InvUpTo(r, n - 1);
      EntriesCount(r, n - 1);
      StepOf(r, n - 1);
      StepLinearizes(s, s', t);
      if Publishes(s, t) {
        MapGrows(Entries(s), s.locals[t].op.key, s.locals[t].op.value);
      } else if Kills(s, t) {
        MapShrinks(Entries(s), s.locals[t].op.key);
      }
    }
  }

  lemma StepOf(r: Run, i: nat)
    requires IsRun(r) && i < |r.actors|
    ensures |r.states| == |r.actors| + 1 && Next(r.states[i], r.states[i + 1], r.actors[i])
  {
  }

  lemma InitEntries(r: Run)
    requires IsRun(r)
    ensures |r.states| > 0 && Inv(r.states[0]) && Entries(r.states[0]) == map[] && r.states[0].pubs == 0
    ensures r.states[0].wins == 0
  {
    InvUpTo(r, 0);
    hide Next, Inv;
    var s := r.states[0];
    assert KeysDiffer(s.heap, s.head);
    assert Abs(s.heap, s.head).Keys == {};
  }

  lemma MapGrows(m: map<int, int>, k: int, v: int)
    requires k !in m
    ensures |m[k := v]| == |m| + 1
  {
    assert m[k := v].Keys == m.Keys + {k};
  }

  lemma MapShrinks(m: map<int, int>, k: int)
    requires k in m
    ensures |m - {k}| == |m| - 1
  {
    assert (m - {k}).Keys == m.Keys - {k};
  }
}
