/** The concurrent list, whole runs: every step keeps the invariant, and no step touches freed memory. */
module ListSafety {
  import opened Words
  import H = HazardPointers
  import HS = HazardSafety
  import opened ListMap
  import opened ListInv
  import opened ListFrame
  import opened ListQuiet
  import opened ListFind
  import opened ListOps
  import opened ListHeap
  import opened ListChange
  import opened ListPublish
  import opened ListRetire
  import opened ListReclaim

  // ---------------------------------------------------------------- memory safety

  lemma TouchedLocal(h: Heap, head: Addr, recs: seq<H.Record>, rec: H.Record, t: Tid, s: State, l: Local)
    requires LocOk(h, head, recs, rec, t, l) && s.heap == h && s.head == head && IsLinked(h, head) && NodesOk(h, head)
    ensures Touched(s, l) <= h.Keys
    ensures l.at.ClearSlot? ==> l.at.slot < 4
    ensures l.at.ReadHeight? && l.node in h ==> h[l.node].height >= 1
  {
  }

  lemma TouchedCovered(h: Heap, head: Addr, recs: seq<H.Record>, rec: H.Record, t: Tid, s: State, l: Local, a: Addr)
    requires LocOk(h, head, recs, rec, t, l) && s.heap == h && s.head == head && IsLinked(h, head)
    requires a in Touched(s, l)
    ensures Covered(h, head, rec, t, a)
  {
    if a == PrevOf(l, head) {
      assert a != 0 ==> H.Protects(rec, 2, a);
    } else if a == CurOf(l.at) {
      assert a != 0 ==> H.Protects(rec, 1, a);
    } else if a == l.node && (l.at.ReadHeight? || l.at.SubRefs?) {
      assert H.Protects(rec, 3, a);
    }
  }

  /**
   * No thread ever goes through an address that is not allocated, nor through a node it
   * has no claim on: a slot of its own record protects the node, or it is the head, or
   * the thread owes it a step, or has not published it yet.
   */
  lemma NeverTouchesFreed(s: State, t: Tid)
    requires Inv(s) && t in s.locals && s.smr.pcs[t].Ready? && !Between(s.locals[t].at)
    ensures CanWork(s, t) && OwnsRecord(s, t)
    ensures forall a :: a in Touched(s, s.locals[t]) ==> Covered(s.heap, s.head, Mine(s, t), t, a)
  {
    hide Inv, LocOk, ListOk;
    TurnOf(s, t);
    TurnDeep(s, t);
    HeadLinked(s.heap, s.head);
    hide NodesOk, Owed, HeldAllocated, RetiredArePending, H.Inv;
    TouchedLocal(s.heap, s.head, s.smr.recs, Mine(s, t), t, s, s.locals[t]);
    hide Covered, Touched;
    forall a | a in Touched(s, s.locals[t]) ensures Covered(s.heap, s.head, Mine(s, t), t, a) {
      TouchedCovered(s.heap, s.head, s.smr.recs, Mine(s, t), t, s, s.locals[t], a);
    }
  }

  // ---------------------------------------------------------------- every step keeps the invariant

  lemma FindKeepsInv(s: State, t: Tid)
    requires Turn(s, t) && CanWork(s, t) && FindAt(s.locals[t].at)
    ensures Inv(Work(s, t))
  {
    hide Inv, LocOk, ListOk;
    match s.locals[t].at
    case FindStart => FindStartStep(s, t);
    case NextLoad(_, _) => NextLoadStep(s, t);
    case NextSet(_, _, _) => NextSetStep(s, t);
    case NextCheck(_, _, _) => NextCheckStep(s, t);
    case NextFail => NextFailStep(s, t);
    case PrevCheck(_, _, _) => PrevCheckStep(s, t);
    case DeadCheck(_, _, _) => DeadCheckStep(s, t);
    case StepPrev(_, _, _) => StepPrevStep(s, t);
    case StepCur(_, _) => StepCurStep(s, t);
    case UnlinkLoad(_, _) => UnlinkLoadStep(s, t);
    case UnlinkCas(prev, cur, _) =>
      TurnOwed(s, t);
      if s.heap[prev].next == Word(cur, false) { UnlinkStep(s, t); } else { UnlinkFailStep(s, t); }
    case DropRef(_, _) => DropRefStep(s, t);
    case RetireDead(_, _) => RetireDeadStep(s, t);
    case Found(_, _, _) => FoundStep(s, t);
  }

  lemma OpsKeepInv(s: State, t: Tid)
    requires Turn(s, t) && CanWork(s, t) && !FindAt(s.locals[t].at) && !Between(s.locals[t].at)
    requires !s.locals[t].at.NewNode? && !s.locals[t].at.Tower?
    ensures Inv(Work(s, t))
  {
    hide Inv, LocOk, ListOk;
    match s.locals[t].at
    case FirstLoad => FirstLoadStep(s, t);
    case FirstSet(_) => FirstSetStep(s, t);
    case FirstCheck(_) => FirstCheckStep(s, t);
    case MarkLoad(_) => MarkLoadStep(s, t);
    case MarkCas(cur, w) =>
      if s.heap[cur].next == w { MarkStep(s, t); } else { MarkFailStep(s, t); }
    case ReadValue(_) => ReadValueStep(s, t);
    case ReadKey(_) => ReadKeyStep(s, t);
    case Protect(_, _) => ProtectStep(s, t);
    case LinkStore(_, _) => LinkStoreStep(s, t);
    case LinkCas(prev, cur) =>
      if s.heap[prev].next == Word(cur, false) { PublishStep(s, t); } else { LinkFailStep(s, t); }
    case ReadHeight => ReadHeightStep(s, t);
    case SubRefs(_) => SubRefsStep(s, t);
    case RetireOwn(_) => RetireOwnStep(s, t);
    case ClearSlot(_, _, _, _) => TurnOwed(s, t); ClearSlotStep(s, t);
    case FreeOwn(_, _) => FreeOwnStep(s, t);
  }

  lemma TowerKeepsInv(s: State, t: Tid, top: nat)
    requires Turn(s, t) && s.locals[t].at.Tower? && s.locals[t].at.over <= top <= |s.tower|
    ensures Inv(DoTower(s, t, top))
  {
    hide Inv, LocOk, ListOk;
    if s.locals[t].at.over == 0 {
      TowerDoneStep(s, t, top);
    } else {
      TowerStep(s, t, top);
    }
  }

  lemma InsideKeepsInv(s: State, s': State, t: Tid)
    requires Turn(s, t) && Next(s, s', t) && !Between(s.locals[t].at)
    ensures Inv(s')
  {
    hide Inv, LocOk, ListOk, CanWork, Work, H.PcOk, H.Slots;
    if s.locals[t].at.NewNode? && s.locals[t].op.Insert? {
      var a :| a != 0 && a !in s.heap && s' == DoNewNode(s, t, a);
      NewNodeStep(s, t, a);
    } else if s.locals[t].at.Tower? {
      var top := TowerLeaves(s, s', t);
      TowerKeepsInv(s, t, top);
    } else if FindAt(s.locals[t].at) {
      FindKeepsInv(s, t);
    } else {
      NewNodeIsInsert(s, t);
      OpsKeepInv(s, t);
    }
  }

  lemma NewNodeIsInsert(s: State, t: Tid)
    requires Turn(s, t) && !Between(s.locals[t].at)
    ensures s.locals[t].at.NewNode? ==> s.locals[t].op.Insert?
  {
  }

  /** Every step of every thread, in any interleaving, keeps the invariant. */
  lemma NextKeepsInv(s: State, s': State, t: Tid)
    requires Inv(s) && Next(s, s', t)
    ensures Inv(s')
  {
    hide Inv, Turn, Work, CanWork, H.PcOk, H.Slots;
    if !s.smr.pcs[t].Ready? {
      ReclaimStep(s, t);
    } else {
      TurnOf(s, t);
      if !Between(s.locals[t].at) {
        InsideKeepsInv(s, s', t);
      } else if s' == DoReclaim(s, t) {
        ReclaimStep(s, t);
      } else {
        var op :| OpOk(op) && s' == Invoke(s, t, op);
        InvokeStep(s, t, op);
      }
    }
  }

  lemma InitInv(s: State)
    requires Init(s)
    ensures Inv(s)
  {
  }

  // ---------------------------------------------------------------- every thread can always move

  lemma {:induction false} UnusedAddress(used: set<Addr>) returns (a: Addr)
    ensures a != 0 && forall b :: b in used ==> b < a
  {
    if used == {} {
      a := 1;
    } else {
      var b :| b in used;
      var c := UnusedAddress(used - {b});
      a := if b < c then c else b + 1;
      forall x | x in used ensures x < a {
        assert x == b || x in used - {b};
      }
    }
  }

  /** No thread is ever stuck, in any reachable state: nothing here waits for another thread. */
  lemma NeverStuck(s: State, t: Tid) returns (s': State)
    requires Inv(s) && t in s.locals
    ensures Next(s, s', t)
  {
    InvParts(s, t);
    hide Inv, H.Inv, Work, CanWork, H.PcOk, H.Slots, ListOk, LocOk, Owed;
    if !s.smr.pcs[t].Ready? || Between(s.locals[t].at) {
      s' := DoReclaim(s, t);
    } else {
      TurnOf(s, t);
      NewNodeIsInsert(s, t);
      NeverTouchesFreed(s, t);
      if s.locals[t].at.NewNode? {
        var a := UnusedAddress(s.heap.Keys);
        s' := DoNewNode(s, t, a);
      } else if s.locals[t].at.Tower? {
        OwnRecord(s, t);
        s' := TowerMay(s, t);
      } else {
        s' := Work(s, t);
      }
    }
  }

  lemma TowerMay(s: State, t: Tid) returns (s': State)
    requires Turn(s, t) && s.locals[t].at.Tower? && HasRecord(s, t)
    ensures TowerNext(s, s', t)
  {
    TowerClosed(s);
    TowerOver(s.heap, s.head, s.smr.recs, Mine(s, t), t, s.locals[t]);
    hide Inv, LocOk, ListOk, OpenStep;
    s' := DoTower(s, t, |s.tower|);
  }

  lemma TowerOver(h: Heap, head: Addr, recs: seq<H.Record>, rec: H.Record, t: Tid, l: Local)
    requires LocOk(h, head, recs, rec, t, l) && OpOk(l.op) && l.at.Tower?
    ensures l.at.over < MAX_HEIGHT
  {
  }

  /** The machine has an initial state for any set of threads. */
  lemma CanBegin(threads: set<Tid>) returns (s: State)
    ensures Init(s) && s.locals.Keys == threads
  {
    var pcs := map t | t in threads :: H.NoRecord;
    var locals := map t | t in threads :: Local(First, 0, false, false, 0, Idle);
    var heap := map[1 := Node(0, 0, MAX_HEIGHT, 0, NULL, Linked, None)];
    s := State(H.Smr(4, [], 0, pcs, multiset{}, multiset{}), heap, 1, seq(MAX_HEIGHT - 1, _ => MARKED_NULL), locals,
        0, 0);
  }
}
