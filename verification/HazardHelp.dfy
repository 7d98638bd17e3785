/**
 * What the reclaimer's walks over the records leave behind, in any run: helpScan empties every
 * orphaned list it comes to, allocate adds a record only when the others are in use, and a
 * record that nobody holds names nothing.
 */
module HazardHelp {
  import opened Words
  import opened HazardPointers
  import opened HazardSafety
  import opened HazardRuns

  // ---------------------------------------------------------------- one step of helpScan

  /** Inside helpScan, past its load of head_. */
  predicate Helping(pc: Pc)
    reads {}
  {
    pc.Help? || LockOf(pc).Some?
  }

  /** The records below this one are still ahead of a helpScan. */
  function Ahead(pc: Pc): int
    reads {}
  {
    if pc.Help? then pc.at + 1 else if LockOf(pc).Some? then LockOf(pc).value + 1 else 0
  }

  /** Another thread holds record q, or t does and its list is empty. */
  predicate Settled(h: Smr, t: Tid, q: int)
    reads {}
  {
    0 <= q < |h.recs| && h.recs[q].active && (h.recs[q].owner != Some(t) || h.recs[q].retired == [])
  }

  /** What kind of step t may take, by where it is. */
  lemma StepKind(h: Smr, h': Smr, t: Tid)
    requires Next(h, h', t) && RecOf(h.pcs[t]).Some?
    ensures PcOk(h, h.pcs[t]) && Slots(h)
    ensures Reclaiming(h.pcs[t]) ==> h' == ScanStep(h, t)
    ensures h.pcs[t].HelpHead? || h.pcs[t].Help? || h.pcs[t].Take? ==> h' == HelpStep(h, t)
    ensures h.pcs[t].Ready? || h.pcs[t].Leave? ==> t in h'.pcs && !Helping(h'.pcs[t])
    ensures h.pcs[t].Leave? ==> !h'.pcs[t].Ready?
  {
    hide ScanStep, HelpStep, Slots, Pending;
  }

  /** A step of scan keeps helpScan where it is. */
  lemma ScanMoves(h: Smr, t: Tid)
    requires t in h.pcs && PcOk(h, h.pcs[t]) && Slots(h) && Reclaiming(h.pcs[t])
    ensures var pc, h' := h.pcs[t], ScanStep(h, t);
            && t in h'.pcs && RecOf(h'.pcs[t]) == RecOf(pc) && LockOf(h'.pcs[t]) == LockOf(pc) && !h'.pcs[t].Help?
            && (h'.pcs[t].Ready? ==> pc.Check?)
  {
    hide Slots, SwapPop, ShouldScan, Victim;
  }

  /** A step of helpScan passes a record only if it is settled. */
  lemma HelpStepMoves(h: Smr, t: Tid)
    requires t in h.pcs && PcOk(h, h.pcs[t]) && (h.pcs[t].HelpHead? || h.pcs[t].Help? || h.pcs[t].Take?)
    requires forall q {:trigger h.recs[q].owner} :: 0 <= q < |h.recs| ==>
               && (h.recs[q].active <==> h.recs[q].owner.Some?)
               && (h.recs[q].owner == Some(t) <==> Owns(h.pcs[t], q))
    ensures var pc, h' := h.pcs[t], HelpStep(h, t);
            && t in h'.pcs && RecOf(h'.pcs[t]) == RecOf(pc)
            && (Helping(h'.pcs[t]) || (pc.Help? && Ahead(pc) <= 0 && h'.pcs[t].Ready?))
            && (pc.HelpHead? ==> Ahead(h'.pcs[t]) == |h.recs|)
            && (!pc.HelpHead? && Helping(h'.pcs[t]) ==>
                  || Ahead(h'.pcs[t]) == Ahead(pc)
                  || (Ahead(h'.pcs[t]) == Ahead(pc) - 1
                      && (RecOf(pc) == Some(Ahead(pc) - 1) || Settled(h, t, Ahead(pc) - 1))))
  {
    var pc := h.pcs[t];
    if pc.Help? && pc.at >= 0 {
      assert h.recs[pc.at].owner == h.recs[pc.at].owner;
    } else if pc.Take? {
      assert h.recs[pc.q].owner == Some(t);
    }
  }

  /** A step that stays inside helpScan, or begins it, or ends it. */
  ghost predicate PassesSettled(h: Smr, h': Smr, t: Tid)
    reads {}
  {
    && t in h.pcs && t in h'.pcs && RecOf(h'.pcs[t]) == RecOf(h.pcs[t])
    && if h.pcs[t].HelpHead? then Ahead(h'.pcs[t]) == |h.recs|
       else
         && Helping(h.pcs[t])
         && (|| Ahead(h'.pcs[t]) == Ahead(h.pcs[t])
             || (Ahead(h'.pcs[t]) == 0 && Ahead(h.pcs[t]) <= 0)
             || (Ahead(h'.pcs[t]) == Ahead(h.pcs[t]) - 1
                 && (RecOf(h.pcs[t]) == Some(Ahead(h.pcs[t]) - 1) || Settled(h, t, Ahead(h.pcs[t]) - 1))))
  }

  lemma HelpMoves(h: Smr, h': Smr, t: Tid)
    requires Inv(h) && Next(h, h', t) && t in h'.pcs && RecOf(h.pcs[t]).Some?
    requires Helping(h'.pcs[t]) || (h'.pcs[t].Ready? && !h.pcs[t].Ready? && !h.pcs[t].Check?)
    ensures PassesSettled(h, h', t) && (h'.pcs[t].Ready? ==> h.pcs[t].Help? && Ahead(h.pcs[t]) <= 0)
  {
    OwnersOf(h, t);
    StepKind(h, h', t);
    hide Inv, Next, ScanStep, HelpStep, Settled, Slots, PcOk;
    if Reclaiming(h.pcs[t]) {
      ScanMoves(h, t);
    } else if h.pcs[t].HelpHead? || h.pcs[t].Help? || h.pcs[t].Take? {
      HelpStepMoves(h, t);
    }
  }

  lemma OwnersOf(h: Smr, t: Tid)
    requires Inv(h) && t in h.pcs
    ensures forall q {:trigger h.recs[q].owner} :: 0 <= q < |h.recs| ==>
              && (h.recs[q].active <==> h.recs[q].owner.Some?)
              && (h.recs[q].owner == Some(t) <==> Owns(h.pcs[t], q))
  {
    hide SafeNames, ScansSee, Conserved, Shape;
  }

  // ---------------------------------------------------------------- whole helpScans

  /** From its step i on, up to state n, thread t is in one helpScan on behalf of record own. */
  ghost predicate OneHelp(r: Run, t: Tid, own: nat, i: nat, n: nat)
    reads {}
  {
    && i < n < |r.states| && |r.states| == |r.actors| + 1 && r.actors[i] == t
    && t in r.states[i].pcs && r.states[i].pcs[t] == HelpHead(own)
    && forall m {:trigger r.states[m].pcs} :: i < m <= n ==>
         t in r.states[m].pcs && Helping(r.states[m].pcs[t]) && RecOf(r.states[m].pcs[t]) == Some(own)
  }

  ghost predicate SettledIn(r: Run, t: Tid, i: nat, n: nat, q: nat)
    reads {}
  {
    exists m {:trigger r.states[m]} :: i <= m <= n < |r.states| && Settled(r.states[m], t, q)
  }

  /** Every record but `own` that was there at i, from number `from` on, was settled at an instant since. */
  ghost predicate AllSettled(r: Run, t: Tid, own: nat, i: nat, n: nat, from: int)
    requires i < |r.states|
    reads {}
  {
    forall q: nat {:trigger SettledIn(r, t, i, n, q)} :: from <= q < |r.states[i].recs| && q != own ==>
      SettledIn(r, t, i, n, q)
  }

  lemma StepOf(r: Run, n: nat)
    requires IsRun(r) && n < |r.actors|
    ensures |r.states| == |r.actors| + 1 && Next(r.states[n], r.states[n + 1], r.actors[n]) && Inv(r.states[n])
  {
    RunInv(r, n);
  }

  /** Others' program counters do not move. */
  lemma OthersStay(h: Smr, h': Smr, t: Tid)
    requires Next(h, h', t)
    ensures h'.pcs.Keys == h.pcs.Keys && forall u :: u in h.pcs && u != t ==> h'.pcs[u] == h.pcs[u]
  {
    hide Pending, HandedUp, SwapPop, ShouldScan, Victim, Slots;
  }

  lemma NotHelpingAtFirst(r: Run, t: Tid)
    requires IsRun(r) && t in r.states[0].pcs
    ensures !Helping(r.states[0].pcs[t]) && !Walking(r.states[0].pcs[t])
  {
  }

  lemma {:induction false} HelpSoFar(r: Run, n: nat, t: Tid) returns (i: nat)
    requires IsRun(r) && n < |r.states| && t in r.states[n].pcs && Helping(r.states[n].pcs[t])
    ensures RecOf(r.states[n].pcs[t]).Some? && OneHelp(r, t, RecOf(r.states[n].pcs[t]).value, i, n)
    ensures AllSettled(r, t, RecOf(r.states[n].pcs[t]).value, i, n, Ahead(r.states[n].pcs[t]))
  {
    hide Inv, Next, Settled, Helping, Init;
    if n == 0 {
      NotHelpingAtFirst(r, t);
      assert false;
    } else {
      StepOf(r, n - 1);
      var h, h', u := r.states[n - 1], r.states[n], r.actors[n - 1];
      OthersStay(h, h', u);
      if u == t {
        HelpingHasRecord(h, h', t);
        HelpMoves(h, h', t);
      }
      hide IsRun;
      if u == t && h.pcs[t].HelpHead? {
        i := n - 1;
        HelpBegins(r, t, n);
      } else {
        i := HelpSoFar(r, n - 1, t);
        HelpGoesOn(r, t, i, n);
      }
    }
  }

  lemma HelpBegins(r: Run, t: Tid, n: nat)
    requires 0 < n < |r.states| && |r.states| == |r.actors| + 1 && r.actors[n - 1] == t && t in r.states[n - 1].pcs
    requires r.states[n - 1].pcs[t].HelpHead? && PassesSettled(r.states[n - 1], r.states[n], t)
    requires Helping(r.states[n].pcs[t])
    ensures RecOf(r.states[n].pcs[t]).Some? && OneHelp(r, t, RecOf(r.states[n].pcs[t]).value, n - 1, n)
    ensures AllSettled(r, t, RecOf(r.states[n].pcs[t]).value, n - 1, n, Ahead(r.states[n].pcs[t]))
  {
  }

  /** What was settled stays so; the record passed now is settled now. */
  lemma HelpGoesOn(r: Run, t: Tid, i: nat, n: nat)
    requires i < n - 1 && n < |r.states| && t in r.states[n - 1].pcs && t in r.states[n].pcs
    requires RecOf(r.states[n - 1].pcs[t]).Some? && Helping(r.states[n].pcs[t])
    requires OneHelp(r, t, RecOf(r.states[n - 1].pcs[t]).value, i, n - 1)
    requires r.states[n].pcs[t] == r.states[n - 1].pcs[t] || PassesSettled(r.states[n - 1], r.states[n], t)
    requires AllSettled(r, t, RecOf(r.states[n - 1].pcs[t]).value, i, n - 1, Ahead(r.states[n - 1].pcs[t]))
    ensures RecOf(r.states[n].pcs[t]).Some? && OneHelp(r, t, RecOf(r.states[n].pcs[t]).value, i, n)
    ensures AllSettled(r, t, RecOf(r.states[n].pcs[t]).value, i, n, Ahead(r.states[n].pcs[t]))
  {
    var pc, pc' := r.states[n - 1].pcs[t], r.states[n].pcs[t];
    assert Helping(pc) && RecOf(pc') == RecOf(pc) && !pc.HelpHead?;
    hide Settled, Helping, Ahead;
    forall q: nat | Ahead(pc') <= q < |r.states[i].recs| && RecOf(pc') != Some(q) ensures SettledIn(r, t, i, n, q) {
      if Ahead(pc) <= q {
        assert SettledIn(r, t, i, n - 1, q);
      } else {
        assert Settled(r.states[n - 1], t, q);
      }
    }
  }

  lemma HelpingHasRecord(h: Smr, h': Smr, t: Tid)
    requires Next(h, h', t) && t in h'.pcs && Helping(h'.pcs[t])
    ensures RecOf(h.pcs[t]).Some? && RecOf(h'.pcs[t]).Some?
  {
    hide Pending, HandedUp, SwapPop, ShouldScan, Victim, Slots;
  }

  /**
   * A thread comes back from retireNode, other than by a negative shouldScan, only at the end of
   * a helpScan; and for each other record that was there when that began, another thread held it
   * at an instant of the call, or its list was empty at an instant at which this thread held it.
   */
  lemma HelpScanAdopts(r: Run, n: nat, t: Tid) returns (i: nat, own: nat)
    requires IsRun(r) && n < |r.actors| && r.actors[n] == t && n + 1 < |r.states|
    requires t in r.states[n].pcs && t in r.states[n + 1].pcs && r.states[n + 1].pcs[t].Ready?
    requires RecOf(r.states[n].pcs[t]).Some? && !r.states[n].pcs[t].Ready? && !r.states[n].pcs[t].Check?
    ensures r.states[n + 1].pcs[t] == Ready(own) && OneHelp(r, t, own, i, n)
    ensures AllSettled(r, t, own, i, n, 0)
  {
    StepOf(r, n);
    var h, h' := r.states[n], r.states[n + 1];
    HelpMoves(h, h', t);
    hide IsRun, Inv, Next, Settled;
    i := HelpSoFar(r, n, t);
    own := RecOf(h.pcs[t]).value;
  }

  // ---------------------------------------------------------------- helpScan run alone

  /** Only t takes steps from state i to state n. */
  ghost predicate Alone(r: Run, t: Tid, i: nat, n: nat)
    reads {}
  {
    i <= n <= |r.actors| && forall m {:trigger r.actors[m]} :: i <= m < n ==> r.actors[m] == t
  }

  /** No other thread moves meanwhile. */
  lemma {:induction false} AlonePcs(r: Run, t: Tid, i: nat, n: nat)
    requires IsRun(r) && Alone(r, t, i, n) && n < |r.states|
    ensures r.states[n].pcs.Keys == r.states[i].pcs.Keys
    ensures forall u :: u in r.states[i].pcs && u != t ==> r.states[n].pcs[u] == r.states[i].pcs[u]
    decreases n
  {
    hide IsRun, Inv, Next;
    if i < n {
      AlonePcs(r, t, i, n - 1);
      StepOf(r, n - 1);
      assert r.actors[n - 1] == t;
      OthersStay(r.states[n - 1], r.states[n], t);
    }
  }

  /** Inside helpScan no list but the own one grows. */
  lemma OtherListsShrink(h: Smr, h': Smr, t: Tid, q: nat)
    requires Next(h, h', t) && Helping(h.pcs[t]) && q < |h.recs| && RecOf(h.pcs[t]) != Some(q)
    ensures q < |h'.recs| && (h.recs[q].retired == [] ==> h'.recs[q].retired == [])
  {
    hide Pending, HandedUp, SwapPop, ShouldScan, Slots;
  }

  lemma {:induction false} EmptyStays(r: Run, t: Tid, own: nat, i: nat, m: nat, n: nat, q: nat)
    requires IsRun(r) && OneHelp(r, t, own, i, n) && Alone(r, t, i, n + 1) && i < m <= n && q != own
    requires q < |r.states[m].recs| && r.states[m].recs[q].retired == []
    requires n + 1 < |r.states|
    ensures q < |r.states[n + 1].recs| && r.states[n + 1].recs[q].retired == []
    decreases n - m
  {
    StepOf(r, m);
    assert r.states[m].pcs == r.states[m].pcs;
    hide IsRun, Inv, Next, Helping;
    assert r.actors[m] == t;
    OtherListsShrink(r.states[m], r.states[m + 1], t, q);
    if m < n {
      EmptyStays(r, t, own, i, m + 1, n, q);
    }
  }

  /** A record another thread holds at n, it held at i. */
  lemma HeldBefore(r: Run, t: Tid, i: nat, n: nat, q: nat)
    requires IsRun(r) && Alone(r, t, i, n) && n < |r.states| && q < |r.states[i].recs| && q < |r.states[n].recs|
    requires r.states[n].recs[q].active && r.states[n].recs[q].owner != Some(t)
    ensures r.states[i].recs[q].active
  {
    RunInv(r, n);
    RunInv(r, i);
    var u := HolderOf(r.states[n], q);
    hide IsRun, Inv;
    AlonePcs(r, t, i, n);
    OwnersOf(r.states[i], u);
  }

  lemma HolderOf(h: Smr, q: nat) returns (u: Tid)
    requires Inv(h) && q < |h.recs| && h.recs[q].active
    ensures u in h.pcs && h.recs[q].owner == Some(u) && Owns(h.pcs[u], q)
  {
    u := h.recs[q].owner.value;
  }

  lemma NotItsOwn(r: Run, n: nat, t: Tid, own: nat, q: nat)
    requires IsRun(r) && n < |r.states| && t in r.states[n].pcs && r.states[n].pcs[t] == Ready(own)
    requires q < |r.states[n].recs| && q != own
    ensures r.states[n].recs[q].owner != Some(t)
  {
    RunInv(r, n);
    hide IsRun, Inv;
    OwnersOf(r.states[n], t);
  }

  /** A helpScan that no other thread interrupts leaves every record it found idle with an empty list, and idle. */
  lemma HelpScanEmpties(r: Run, n: nat, t: Tid) returns (i: nat, own: nat)
    requires IsRun(r) && n < |r.actors| && r.actors[n] == t && n + 1 < |r.states|
    requires t in r.states[n].pcs && t in r.states[n + 1].pcs && r.states[n + 1].pcs[t].Ready?
    requires RecOf(r.states[n].pcs[t]).Some? && !r.states[n].pcs[t].Ready? && !r.states[n].pcs[t].Check?
    ensures r.states[n + 1].pcs[t] == Ready(own) && OneHelp(r, t, own, i, n)
    ensures Alone(r, t, i, n + 1) ==>
              forall q: nat :: q < |r.states[i].recs| && q != own && !r.states[i].recs[q].active ==>
                q < |r.states[n + 1].recs| && r.states[n + 1].recs[q].retired == [] && !r.states[n + 1].recs[q].active
  {
    i, own := HelpScanAdopts(r, n, t);
    hide IsRun, OneHelp, Alone;
    if Alone(r, t, i, n + 1) {
      forall q: nat | q < |r.states[i].recs| && q != own && !r.states[i].recs[q].active
        ensures q < |r.states[n + 1].recs| && r.states[n + 1].recs[q].retired == [] && !r.states[n + 1].recs[q].active
      {
        EmptiesOne(r, n, t, i, own, q);
      }
    }
  }

  lemma EmptiesOne(r: Run, n: nat, t: Tid, i: nat, own: nat, q: nat)
    requires IsRun(r) && OneHelp(r, t, own, i, n) && Alone(r, t, i, n + 1) && n + 1 < |r.states|
    requires t in r.states[n + 1].pcs && r.states[n + 1].pcs[t] == Ready(own)
    requires q < |r.states[i].recs| && q != own && !r.states[i].recs[q].active && SettledIn(r, t, i, n, q)
    ensures q < |r.states[n + 1].recs| && r.states[n + 1].recs[q].retired == [] && !r.states[n + 1].recs[q].active
  {
    var m :| i <= m <= n && Settled(r.states[m], t, q);
    assert Alone(r, t, i, m) && i < m;
    hide IsRun, Inv, OneHelp, Alone;
    if r.states[m].recs[q].owner != Some(t) {
      HeldBefore(r, t, i, m, q);
    }
    EmptyStays(r, t, own, i, m, n, q);
    NotItsOwn(r, n + 1, t, own, q);
    if r.states[n + 1].recs[q].active {
      HeldBefore(r, t, i, n + 1, q);
    }
  }

  // ---------------------------------------------------------------- allocate

  predicate Walking(pc: Pc)
    reads {}
  {
    pc.Walk? || pc.WalkCas?
  }

  /** From its step i on, up to state n, thread t is in one walk of allocate. */
  ghost predicate OneWalk(r: Run, t: Tid, i: nat, n: nat)
    reads {}
  {
    && i < n < |r.states| && |r.states| == |r.actors| + 1 && r.actors[i] == t
    && t in r.states[i].pcs && r.states[i].pcs[t].NoRecord?
    && forall m {:trigger r.states[m].pcs} :: i < m <= n ==> t in r.states[m].pcs && Walking(r.states[m].pcs[t])
  }

  ghost predicate TakenIn(r: Run, i: nat, n: nat, q: nat)
    reads {}
  {
    exists m {:trigger r.states[m]} :: i <= m <= n < |r.states| && q < |r.states[m].recs| && r.states[m].recs[q].active
  }

  /** Every record that was there at i, from number `from` on, was in use at an instant since. */
  ghost predicate AllTaken(r: Run, i: nat, n: nat, from: int)
    requires i < |r.states|
    reads {}
  {
    forall q: nat {:trigger TakenIn(r, i, n, q)} :: from <= q < |r.states[i].recs| ==> TakenIn(r, i, n, q)
  }

  /** A step of allocate walks past a record only if it is in use. */
  lemma WalkMoves(h: Smr, h': Smr, t: Tid)
    requires Next(h, h', t) && t in h'.pcs && (Walking(h'.pcs[t]) || (h'.pcs[t].Push? && !h.pcs[t].PushCas?))
    ensures var pc, pc' := h.pcs[t], h'.pcs[t];
            if pc.NoRecord? then pc' == Walk(|h.recs| - 1)
            else
              && Walking(pc)
              && if pc'.Push? then pc.at < 0
                 else pc'.at == pc.at
                      || (pc'.at == pc.at - 1 && 0 <= pc.at < |h.recs| && h.recs[pc.at].active)
  {
    hide Pending, HandedUp, SwapPop, ShouldScan, Victim, Slots, ScanStep, HelpStep, LeaveStep, SetSlot, Hold;
    if RecOf(h.pcs[t]).Some? {
      StaysAllocated(h, h', t);
    }
  }

  /** A thread that has a record does not start to walk. */
  lemma StaysAllocated(h: Smr, h': Smr, t: Tid)
    requires Next(h, h', t) && t in h'.pcs && RecOf(h.pcs[t]).Some?
    ensures !Walking(h'.pcs[t]) && !h'.pcs[t].Push?
  {
    hide Pending, HandedUp, SwapPop, ShouldScan, Victim, Slots;
  }

  lemma {:induction false} WalkSoFar(r: Run, n: nat, t: Tid) returns (i: nat)
    requires IsRun(r) && n < |r.states| && t in r.states[n].pcs && Walking(r.states[n].pcs[t])
    ensures OneWalk(r, t, i, n) && AllTaken(r, i, n, r.states[n].pcs[t].at + 1)
  {
    hide Inv, Next, Init, OneWalk, AllTaken;
    if n == 0 {
      NotHelpingAtFirst(r, t);
      assert false;
    } else {
      StepOf(r, n - 1);
      var h, h', u := r.states[n - 1], r.states[n], r.actors[n - 1];
      hide IsRun;
      OthersStay(h, h', u);
      if u == t {
        WalkMoves(h, h', t);
      }
      if u == t && h.pcs[t].NoRecord? {
        i := n - 1;
        WalkBegins(r, t, n);
      } else {
        i := WalkSoFar(r, n - 1, t);
        WalkGoesOn(r, t, i, n);
      }
    }
  }

  lemma WalkBegins(r: Run, t: Tid, n: nat)
    requires 0 < n < |r.states| && |r.states| == |r.actors| + 1 && r.actors[n - 1] == t && t in r.states[n - 1].pcs
    requires r.states[n - 1].pcs[t].NoRecord? && t in r.states[n].pcs
    requires r.states[n].pcs[t] == Walk(|r.states[n - 1].recs| - 1)
    ensures OneWalk(r, t, n - 1, n) && AllTaken(r, n - 1, n, r.states[n].pcs[t].at + 1)
  {
  }

  lemma WalkGoesOn(r: Run, t: Tid, i: nat, n: nat)
    requires 0 < n < |r.states| && OneWalk(r, t, i, n - 1) && t in r.states[n].pcs
    requires Walking(r.states[n - 1].pcs[t]) && Walking(r.states[n].pcs[t])
    requires AllTaken(r, i, n - 1, r.states[n - 1].pcs[t].at + 1)
    requires var h, at, at' := r.states[n - 1], r.states[n - 1].pcs[t].at, r.states[n].pcs[t].at;
             at' == at || (at' == at - 1 && 0 <= at < |h.recs| && h.recs[at].active)
    ensures OneWalk(r, t, i, n) && AllTaken(r, i, n, r.states[n].pcs[t].at + 1)
  {
    forall q: nat | r.states[n].pcs[t].at + 1 <= q < |r.states[i].recs| ensures TakenIn(r, i, n, q) {
      if r.states[n - 1].pcs[t].at + 1 <= q {
        assert TakenIn(r, i, n - 1, q);
      } else {
        assert r.states[n - 1].recs[q].active;
      }
    }
  }

  /** allocate adds a record only after it has seen each one that was there when it began in use. */
  lemma AllocateReuses(r: Run, n: nat, t: Tid) returns (i: nat)
    requires IsRun(r) && n < |r.actors| && r.actors[n] == t && n + 1 < |r.states|
    requires t in r.states[n].pcs && t in r.states[n + 1].pcs
    requires r.states[n + 1].pcs[t].Push? && !r.states[n].pcs[t].PushCas?
    ensures OneWalk(r, t, i, n) && AllTaken(r, i, n, 0)
  {
    StepOf(r, n);
    hide IsRun, Inv, Next;
    WalkMoves(r.states[n], r.states[n + 1], t);
    i := WalkSoFar(r, n, t);
  }

  // ---------------------------------------------------------------- records nobody uses

  predicate AllNull(rec: Record, n: nat)
    reads {}
  {
    forall k :: 0 <= k < n && k < |rec.slots| ==> rec.slots[k] == NULL
  }

  /** No thread has allocated q: it is idle, or a helper has locked it. */
  predicate Unused(h: Smr, q: nat)
    requires q < |h.recs|
    reads {}
  {
    h.recs[q].owner.Some? ==> h.recs[q].owner.value in h.pcs && RecOf(h.pcs[h.recs[q].owner.value]) != Some(q)
  }

  ghost predicate IdleOk(h: Smr)
    reads {}
  {
    && (forall q {:trigger h.recs[q]} :: 0 <= q < |h.recs| && Unused(h, q) ==> AllNull(h.recs[q], h.k))
    && (forall t {:trigger h.pcs[t]} :: t in h.pcs && h.pcs[t].Leave? && h.pcs[t].r < |h.recs| ==>
          AllNull(h.recs[h.pcs[t].r], h.pcs[t].slot))
  }

  /** Slots change only by the thread that has allocated the record. */
  lemma SlotsStep(h: Smr, h': Smr, t: Tid, q: nat)
    requires Next(h, h', t) && q < |h'.recs|
    ensures t in h'.pcs && h'.k == h.k && |h.recs| <= |h'.recs|
    ensures q >= |h.recs| ==> AllNull(h'.recs[q], h.k)
    ensures q < |h.recs| && h'.recs[q].slots != h.recs[q].slots ==> RecOf(h.pcs[t]) == Some(q)
  {
    hide Pending, HandedUp, SwapPop, ShouldScan, Victim, Slots;
  }

  /** One that leaves nulls them in order, and is gone when it has done the last. */
  lemma LeaveMoves(h: Smr, h': Smr, t: Tid)
    requires Next(h, h', t) && t in h'.pcs
    ensures h'.pcs[t].Leave? ==>
              var Leave(r, slot) := h'.pcs[t];
              || slot == 0
              || (h.pcs[t] == Leave(r, slot - 1) && r < |h.recs| && r < |h'.recs|
                  && (AllNull(h.recs[r], slot - 1) ==> AllNull(h'.recs[r], slot)))
    ensures h.pcs[t].Leave? && RecOf(h'.pcs[t]).None? ==>
              var Leave(r, slot) := h.pcs[t];
              slot >= h.k && r < |h.recs| && r < |h'.recs| && h'.recs[r].slots == h.recs[r].slots
  {
    if h.pcs[t].Leave? || h'.pcs[t].Leave? {
      OnlyLeaves(h, h', t);
      LeaveStepMoves(h, t);
    }
  }

  lemma OnlyLeaves(h: Smr, h': Smr, t: Tid)
    requires Next(h, h', t) && t in h'.pcs && (h.pcs[t].Leave? || h'.pcs[t].Leave?)
    ensures PcOk(h, h.pcs[t]) && Slots(h) && h' == LeaveStep(h, t) && (h.pcs[t].Ready? || h.pcs[t].Leave?)
  {
    hide LeaveStep, Pending, HandedUp, SwapPop, ShouldScan, Victim, Slots;
  }

  lemma LeaveStepMoves(h: Smr, t: Tid)
    requires t in h.pcs && PcOk(h, h.pcs[t]) && Slots(h) && (h.pcs[t].Ready? || h.pcs[t].Leave?)
    ensures var h' := LeaveStep(h, t);
            && t in h'.pcs
            && (h'.pcs[t].Leave? ==>
                  var Leave(r, slot) := h'.pcs[t];
                  || slot == 0
                  || (h.pcs[t] == Leave(r, slot - 1) && r < |h.recs| && r < |h'.recs|
                      && (AllNull(h.recs[r], slot - 1) ==> AllNull(h'.recs[r], slot))))
            && (h.pcs[t].Leave? && RecOf(h'.pcs[t]).None? ==>
                  var Leave(r, slot) := h.pcs[t];
                  slot >= h.k && r < |h.recs| && r < |h'.recs| && h'.recs[r].slots == h.recs[r].slots)
  {
    hide HandedUp;
  }

  /** A thread keeps its record until it has left it. */
  lemma KeepsRecord(h: Smr, h': Smr, t: Tid)
    requires Next(h, h', t) && t in h'.pcs && RecOf(h.pcs[t]).Some?
    ensures RecOf(h'.pcs[t]) == RecOf(h.pcs[t]) || (h.pcs[t].Leave? && RecOf(h'.pcs[t]).None?)
  {
    hide Pending, HandedUp, SwapPop, ShouldScan, Victim, Slots;
  }

  lemma IdleStep(h: Smr, h': Smr, t: Tid)
    requires Inv(h) && Next(h, h', t) && Inv(h') && IdleOk(h)
    ensures IdleOk(h')
  {
    forall q | 0 <= q < |h'.recs| && Unused(h', q) ensures AllNull(h'.recs[q], h'.k) {
      StillNull(h, h', t, q);
    }
    forall u | u in h'.pcs && h'.pcs[u].Leave? && h'.pcs[u].r < |h'.recs|
      ensures AllNull(h'.recs[h'.pcs[u].r], h'.pcs[u].slot)
    {
      LeavingNull(h, h', t, u);
    }
  }

  /** A record unused after the step was unused before, or its thread has just left it. */
  lemma StillNull(h: Smr, h': Smr, t: Tid, q: nat)
    requires Inv(h) && Next(h, h', t) && Inv(h') && IdleOk(h) && q < |h'.recs| && Unused(h', q)
    ensures AllNull(h'.recs[q], h'.k)
  {
    OthersStay(h, h', t);
    LeaveMoves(h, h', t);
    SlotsStep(h, h', t, q);
    if RecOf(h.pcs[t]).Some? {
      KeepsRecord(h, h', t);
    }
    if q < |h.recs| {
      var o := h.recs[q].owner;
      if o.Some? {
        OwnersOf(h, o.value);
        OwnersOf(h', o.value);
      }
      OwnersOf(h, t);
      OwnersOf(h', t);
      hide Inv, Next, Owns, AllNull;
      assert Unused(h, q) ==> AllNull(h.recs[q], h.k);
    }
  }

  lemma LeavingNull(h: Smr, h': Smr, t: Tid, u: Tid)
    requires Inv(h) && Next(h, h', t) && Inv(h') && IdleOk(h)
    requires u in h'.pcs && h'.pcs[u].Leave? && h'.pcs[u].r < |h'.recs|
    ensures AllNull(h'.recs[h'.pcs[u].r], h'.pcs[u].slot)
  {
    OthersStay(h, h', t);
    LeaveMoves(h, h', t);
    SlotsStep(h, h', t, h'.pcs[u].r);
    OwnersOf(h, u);
    OwnersOf(h, t);
    hide Inv, Next;
  }

  lemma {:induction false} IdleUpTo(r: Run, n: nat)
    requires IsRun(r) && n < |r.states|
    ensures Inv(r.states[n]) && IdleOk(r.states[n])
  {
    hide Inv, Next, IdleOk;
    RunInv(r, n);
    if n == 0 {
      IdleAtFirst(r.states[0]);
    } else {
      IdleUpTo(r, n - 1);
      StepOf(r, n - 1);
      IdleStep(r.states[n - 1], r.states[n], r.actors[n - 1]);
    }
  }

  lemma IdleAtFirst(h: Smr)
    requires Init(h)
    ensures IdleOk(h)
  {
  }

  /** In every run, a record without a holder names nothing, so it keeps no node from being freed. */
  lemma IdleNamesNothing(r: Run, n: nat, q: nat)
    requires IsRun(r) && n < |r.states| && q < |r.states[n].recs| && !r.states[n].recs[q].active
    ensures forall k :: 0 <= k < |r.states[n].recs[q].slots| ==> r.states[n].recs[q].slots[k] == NULL
  {
    IdleUpTo(r, n);
    hide IsRun;
    var h := r.states[n];
    assert h.recs[q].owner.None? && |h.recs[q].slots| == h.k && Unused(h, q);
  }
}
