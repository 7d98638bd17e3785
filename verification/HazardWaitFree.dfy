/**
 * Reclamation is wait-free: a thread that keeps running comes out of the scan and the helpScan
 * its retireNode began, whatever the other threads do. Each of its own steps brings down a
 * measure, and no step of anyone else touches what is measured.
 */
module HazardWaitFree {
  import opened Words
  import opened HazardPointers
  import opened HazardSafety
  import opened HazardRuns
  import HH = HazardHelp

  /** Inside retireNode past its push_back: shouldScan, scan or helpScan. */
  predicate Busy(pc: Pc)
    reads {}
  {
    Reclaiming(pc) || pc.HelpHead? || pc.Help? || pc.Take?
  }

  /** How far the call is from its end: shouldScan, the scan, helpScan's first load, its loop. */
  function Part(pc: Pc): nat
    reads {}
  {
    if LockOf(pc).Some? || pc.Help? then 1
    else if pc.HelpHead? then 2
    else if pc.Head? || pc.Scan? || pc.Sweep? then 3
    else if pc.Check? then 4
    else 0
  }

  /** Records helpScan has still to try and to finish, each counted twice until it is locked. */
  function Ahead(pc: Pc): nat
    reads {}
  {
    if pc.Help? then if pc.at < 0 then 0 else 2 * pc.at + 2
    else if LockOf(pc).Some? then 2 * LockOf(pc).value + 1
    else 0
  }

  /** Nodes left on the list helpScan is draining. */
  function Theirs(h: Smr, pc: Pc): nat
    reads {}
  {
    if LockOf(pc).Some? && LockOf(pc).value < |h.recs| then |h.recs[LockOf(pc).value].retired| else 0
  }

  /** The parts of one scan, and after it. */
  function Phase(pc: Pc): nat
    reads {}
  {
    if pc.Check? then 4 else if pc.Head? then 3 else if pc.Scan? then 2 else if pc.Sweep? then 1 else 0
  }

  /** Records, or nodes, a scan has still to look at. */
  function Rest(h: Smr, pc: Pc): nat
    reads {}
  {
    if pc.Scan? then if pc.at < 0 then 0 else pc.at + 1
    else if pc.Sweep? && pc.p.r < |h.recs| && pc.iter <= |h.recs[pc.p.r].retired| then
      |h.recs[pc.p.r].retired| - pc.iter
    else 0
  }

  /** Slots of the current record it has still to look at. */
  function SlotsLeft(h: Smr, pc: Pc): nat
    reads {}
  {
    if pc.Scan? && pc.slot <= h.k then h.k - pc.slot else 0
  }

  /** Lexicographically less, the six measures in their order. */
  predicate Less(h': Smr, pc': Pc, h: Smr, pc: Pc)
    reads {}
  {
    || Part(pc') < Part(pc)
    || (Part(pc') == Part(pc)
        && (|| Ahead(pc') < Ahead(pc)
            || (Ahead(pc') == Ahead(pc)
                && (|| Theirs(h', pc') < Theirs(h, pc)
                    || (Theirs(h', pc') == Theirs(h, pc)
                        && (|| Phase(pc') < Phase(pc)
                            || (Phase(pc') == Phase(pc)
                                && (|| Rest(h', pc') < Rest(h, pc)
                                    || (Rest(h', pc') == Rest(h, pc) && SlotsLeft(h', pc') < SlotsLeft(h, pc))))))))))
  }

  /** Back from retireNode with the same record, or nearer to that. */
  predicate GetsOn(h: Smr, h': Smr, t: Tid)
    requires t in h.pcs
    reads {}
  {
    && t in h'.pcs && RecOf(h'.pcs[t]) == RecOf(h.pcs[t])
    && (h'.pcs[t].Ready? || (Busy(h'.pcs[t]) && Less(h', h'.pcs[t], h, h.pcs[t])))
  }

  lemma ScanGetsOn(h: Smr, t: Tid)
    requires t in h.pcs && PcOk(h, h.pcs[t]) && Slots(h) && Reclaiming(h.pcs[t])
    ensures GetsOn(h, ScanStep(h, t), t)
  {
    hide Slots;
  }

  lemma HelpGetsOn(h: Smr, t: Tid)
    requires t in h.pcs && PcOk(h, h.pcs[t]) && (h.pcs[t].HelpHead? || h.pcs[t].Help? || h.pcs[t].Take?)
    ensures GetsOn(h, HelpStep(h, t), t)
  {
  }

  /** Its own step brings a thread nearer to the end of the call. */
  lemma OwnStep(h: Smr, h': Smr, t: Tid)
    requires Next(h, h', t) && Busy(h.pcs[t])
    ensures GetsOn(h, h', t)
  {
    HH.StepKind(h, h', t);
    hide Next, GetsOn, ScanStep, HelpStep, Slots, PcOk;
    if Reclaiming(h.pcs[t]) {
      ScanGetsOn(h, t);
    } else {
      HelpGetsOn(h, t);
    }
  }

  /** A step of another thread takes it nowhere and changes no list it has in hand. */
  lemma OtherStep(h: Smr, h': Smr, u: Tid, t: Tid)
    requires Inv(h) && Next(h, h', u) && u != t && t in h.pcs
    ensures t in h'.pcs && h'.pcs[t] == h.pcs[t] && h'.k == h.k
    ensures Theirs(h', h.pcs[t]) == Theirs(h, h.pcs[t]) && Rest(h', h.pcs[t]) == Rest(h, h.pcs[t])
  {
    HH.OthersStay(h, h', u);
    SameSlotCount(h, h', u);
    InRange(h, t);
    hide Inv, Next, PcOk;
    var pc := h.pcs[t];
    if LockOf(pc).Some? {
      ListsAreOwned(h, h', u, LockOf(pc).value);
    }
    if pc.Sweep? {
      ListsAreOwned(h, h', u, pc.p.r);
    }
  }

  lemma SameSlotCount(h: Smr, h': Smr, u: Tid)
    requires Next(h, h', u)
    ensures h'.k == h.k
  {
    hide Pending, HandedUp, SwapPop, ShouldScan, Victim, Slots;
  }

  lemma InRange(h: Smr, t: Tid)
    requires Inv(h) && t in h.pcs
    ensures PcOk(h, h.pcs[t])
  {
  }

  // ---------------------------------------------------------------- endless runs

  /** A run that goes on for ever. */
  datatype History = History(state: nat -> Smr, actor: nat -> Tid)

  ghost predicate IsHistory(r: History)
    reads {}
  {
    Init(r.state(0)) && forall i: nat {:trigger r.actor(i)} :: Next(r.state(i), r.state(i + 1), r.actor(i))
  }

  /** Thread t never stops taking steps. */
  ghost predicate KeepsRunning(r: History, t: Tid)
    reads {}
  {
    forall n: nat :: StepsAgain(r, t, n)
  }

  ghost predicate StepsAgain(r: History, t: Tid, n: nat)
    reads {}
  {
    exists m: nat :: n <= m && r.actor(m) == t
  }

  lemma {:induction false} HistoryInv(r: History, n: nat)
    requires IsHistory(r)
    ensures Inv(r.state(n))
  {
    hide Inv, Next, Init;
    if n == 0 {
      InitInv(r.state(0));
    } else {
      HistoryInv(r, n - 1);
      var u := r.actor(n - 1);
      NextKeepsInv(r.state(n - 1), r.state(n), u);
    }
  }

  ghost predicate BusyThroughout(r: History, t: Tid, i: nat, j: nat)
    reads {}
  {
    forall m: nat {:trigger r.state(m)} :: i <= m < j ==> t in r.state(m).pcs && Busy(r.state(m).pcs[t])
  }

  /** From any state of a call, up to its end; `turn` is a coming step of t's own. */
  lemma {:induction false} Ends(r: History, t: Tid, i: nat, turn: nat) returns (j: nat)
    requires IsHistory(r) && KeepsRunning(r, t) && i <= turn && r.actor(turn) == t
    requires t in r.state(i).pcs && Busy(r.state(i).pcs[t])
    ensures i < j && t in r.state(j).pcs && r.state(j).pcs[t].Ready? && BusyThroughout(r, t, i, j)
    ensures RecOf(r.state(j).pcs[t]) == RecOf(r.state(i).pcs[t])
    decreases Part(r.state(i).pcs[t]), Ahead(r.state(i).pcs[t]), Theirs(r.state(i), r.state(i).pcs[t]),
      Phase(r.state(i).pcs[t]), Rest(r.state(i), r.state(i).pcs[t]), SlotsLeft(r.state(i), r.state(i).pcs[t]), turn - i
  {
    hide Inv, Next, Init, Part, Ahead, Theirs, Phase, Rest, SlotsLeft;
    HistoryInv(r, i);
    var h, h', u := r.state(i), r.state(i + 1), r.actor(i);
    var next := turn;
    if u == t {
      OwnStep(h, h', t);
      assert StepsAgain(r, t, i + 1);
      next :| i + 1 <= next && r.actor(next) == t;
    } else {
      OtherStep(h, h', u, t);
      SlotsLeftSame(h, h', h.pcs[t]);
    }
    if h'.pcs[t].Ready? {
      j := i + 1;
    } else {
      j := Ends(r, t, i + 1, next);
    }
  }

  lemma SlotsLeftSame(h: Smr, h': Smr, pc: Pc)
    requires h'.k == h.k
    ensures SlotsLeft(h', pc) == SlotsLeft(h, pc)
  {
  }

  /** A thread that keeps running comes back from retireNode, its scans and helpScan included. */
  lemma RetireNodeReturns(r: History, t: Tid, i: nat) returns (j: nat)
    requires IsHistory(r) && KeepsRunning(r, t) && t in r.state(i).pcs && Busy(r.state(i).pcs[t])
    ensures i < j && t in r.state(j).pcs && r.state(j).pcs[t].Ready? && BusyThroughout(r, t, i, j)
    ensures RecOf(r.state(j).pcs[t]) == RecOf(r.state(i).pcs[t])
  {
    hide IsHistory;
    assert StepsAgain(r, t, i);
    var turn: nat :| i <= turn && r.actor(turn) == t;
    j := Ends(r, t, i, turn);
  }
}
