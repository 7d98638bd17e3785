/** The steps of find, and the other steps that change no node, keep the invariant. */
module ListFind {
  import opened Words
  import H = HazardPointers
  import opened ListMap
  import opened ListInv
  import opened ListFrame
  import opened ListQuiet

  /** Thread t is inside an operation and may take its next access. */
  ghost predicate Turn(s: State, t: Tid)
    reads {}
  {
    && Inv(s) && ListOk(s.heap, s.head) && t in s.locals && t in s.smr.pcs && s.smr.pcs[t].Ready?
    && OwnsRecord(s, t) && OpOk(s.locals[t].op)
    && (!Between(s.locals[t].at) ==> LocOk(s.heap, s.head, s.smr.recs, Mine(s, t), t, s.locals[t]))
  }

  lemma TurnOf(s: State, t: Tid)
    requires Inv(s) && t in s.locals && s.smr.pcs[t].Ready?
    ensures Turn(s, t)
  {
    OwnRecord(s, t);
    assert LocalOk(s, t);
  }

  /** A step with no effect but the next location. */
  lemma GotoKeepsInv(s: State, t: Tid, at: Loc)
    requires Turn(s, t) && !Between(s.locals[t].at) && !OwesNode(s.locals[t].at)
    requires if Between(at) then s.locals[t].node == 0
             else LocOk(s.heap, s.head, s.smr.recs, Mine(s, t), t, s.locals[t].(at := at))
    ensures Inv(Goto(s, t, at))
  {
    hide H.Inv, LocOk;
    var l := s.locals[t].(at := at);
    var s' := Goto(s, t, at);
    assert LocalOk(s, t);
    SlotsOnlySame(s, t);
    QuietKeepsInv(s, s', t, l);
  }

  /** A step that stores one hazard slot and goes on. */
  lemma StoreKeepsInv(s: State, t: Tid, k: nat, w: Word, at: Loc)
    requires Turn(s, t) && !Between(s.locals[t].at) && !OwesNode(s.locals[t].at) && k < 4
    requires if Between(at) then s.locals[t].node == 0
             else LocOk(s.heap, s.head, SetHazard(s, t, k, w).smr.recs,
                        H.StoreSlot(Mine(s, t), k, w), t, s.locals[t].(at := at))
    ensures Inv(Goto(SetHazard(s, t, k, w), t, at))
  {
    hide H.Inv, LocOk;
    var l := s.locals[t].(at := at);
    var s1 := SetHazard(s, t, k, w);
    var s' := Goto(s1, t, at);
    HazardSet(s, t, k, w);
    assert LocalOk(s, t);
    QuietKeepsInv(s, s', t, l);
  }

  /** A step that stores a slot and, having re-checked, lets it protect the node it names. */
  lemma GuardKeepsInv(s: State, t: Tid, k: nat, a: Addr, at: Loc)
    requires Turn(s, t) && !Between(s.locals[t].at) && !OwesNode(s.locals[t].at) && k < 4 && !Between(at)
    requires a != 0 && a in s.heap && !s.heap[a].stage.Retired?
    requires (s.heap[a].stage.Private? ==> s.heap[a].inserter == Some(t))
    requires LocOk(s.heap, s.head, Validate(SetHazard(s, t, k, Word(a, false)), t, k, a).smr.recs,
                   H.Validated(H.StoreSlot(Mine(s, t), k, Word(a, false)), k), t, s.locals[t].(at := at))
    ensures Inv(Goto(Validate(SetHazard(s, t, k, Word(a, false)), t, k, a), t, at))
  {
    hide H.Inv, LocOk;
    var l := s.locals[t].(at := at);
    var s1 := SetHazard(s, t, k, Word(a, false));
    var s' := Goto(Validate(s1, t, k, a), t, at);
    HazardSet(s, t, k, Word(a, false));
    PendingByLists(s.smr.recs, s1.smr.recs);
    HazardHeld(s1, t, k, a);
    SlotsOnlyTwice(s, s1, s', t);
    assert LocalOk(s, t);
    QuietKeepsInv(s, s', t, l);
  }

  lemma SlotsOnlyTwice(s: State, s1: State, s2: State, t: Tid)
    requires s1.heap == s.heap && SlotsOnly(s, s1.smr, t) && SlotsOnly(s1, s2.smr, t)
    ensures SlotsOnly(s, s2.smr, t)
  {
    forall q, k | 0 <= q < |s2.smr.recs| && k in s2.smr.recs[q].safe && k < |s2.smr.recs[q].slots|
      ensures var a := s2.smr.recs[q].slots[k].ptr;
              || Holds(s.smr.recs[q], a)
              || (a in s.heap && (s.heap[a].stage.Private? ==> s.heap[a].inserter == Some(t) && InsertedBy(s, a, q)))
    {
      var a := s2.smr.recs[q].slots[k].ptr;
      if Holds(s1.smr.recs[q], a) {
        var j :| j in s1.smr.recs[q].safe && H.Protects(s1.smr.recs[q], j, a);
      }
    }
  }

  /** A re-check after the store: slot k comes to protect the node it already names. */
  lemma ValidateKeepsInv(s: State, t: Tid, k: nat, a: Addr, at: Loc)
    requires Turn(s, t) && !Between(s.locals[t].at) && !OwesNode(s.locals[t].at) && k < 4 && !Between(at)
    requires Mine(s, t).slots[k] == Word(a, false)
    requires a != 0 ==> a in s.heap && !s.heap[a].stage.Retired? && !s.heap[a].stage.Private?
    requires LocOk(s.heap, s.head, Validate(s, t, k, a).smr.recs,
                   if a == 0 then Mine(s, t) else H.Validated(Mine(s, t), k), t, s.locals[t].(at := at))
    ensures Inv(Goto(Validate(s, t, k, a), t, at))
  {
    hide H.Inv, LocOk;
    var l := s.locals[t].(at := at);
    var s' := Goto(Validate(s, t, k, a), t, at);
    HazardHeld(s, t, k, a);
    assert LocalOk(s, t);
    QuietKeepsInv(s, s', t, l);
  }

  // ---------------------------------------------------------------- what a slot store leaves in place

  lemma StoreKeeps(rec: H.Record, k: nat, w: Word, j: nat, a: Addr)
    requires k < |rec.slots| && k != j && H.Protects(rec, j, a)
    ensures H.Protects(H.StoreSlot(rec, k, w), j, a)
  {
  }

  /** Handing a node to a higher slot needs no new check. */
  lemma StoreHandsUp(rec: H.Record, k: nat, j: nat, a: Addr)
    requires j < k < |rec.slots| && H.Protects(rec, j, a)
    ensures H.Protects(H.StoreSlot(rec, k, Word(a, false)), k, a)
  {
    assert j in rec.safe;
  }

  /** The successor of a published unmarked node is in the list, further on. */
  lemma SuccessorLinked(h: Heap, head: Addr, a: Addr)
    requires ListOk(h, head) && a in h && !h[a].stage.Private? && !h[a].next.tag
    ensures IsLinked(h, a)
    ensures h[a].next.ptr != 0 ==> IsLinked(h, h[a].next.ptr) && Before(h, head, a, h[a].next.ptr)
  {
  }

  lemma HeadLinked(h: Heap, head: Addr)
    requires ListOk(h, head)
    ensures head != 0 && IsLinked(h, head) && !h[head].next.tag
  {
  }

  // ---------------------------------------------------------------- reaching the first node

  lemma FindStartStep(s: State, t: Tid)
    requires Turn(s, t) && s.locals[t].at.FindStart?
    ensures Inv(DoFindStart(s, t))
  {
    hide Inv, ListOk;
    HeadLinked(s.heap, s.head);
    if s.locals[t].node != 0 { StoreKeeps(Mine(s, t), 2, Word(s.head, false), 3, s.locals[t].node); }
    GuardKeepsInv(s, t, 2, s.head, FirstLoad);
  }

  lemma FirstLoadStep(s: State, t: Tid)
    requires Turn(s, t) && s.locals[t].at.FirstLoad? && s.head in s.heap
    ensures Inv(DoFirstLoad(s, t))
  {
    hide Inv, ListOk;
    HeadLinked(s.heap, s.head);
    GotoKeepsInv(s, t, FirstSet(s.heap[s.head].next));
  }

  lemma FirstSetStep(s: State, t: Tid)
    requires Turn(s, t) && s.locals[t].at.FirstSet?
    ensures Inv(DoFirstSet(s, t))
  {
    hide Inv, ListOk;
    HeadLinked(s.heap, s.head);
    var w := s.locals[t].at.link;
    if s.locals[t].node != 0 { StoreKeeps(Mine(s, t), 1, w, 3, s.locals[t].node); }
    if !s.locals[t].op.First? {
      StoreKeeps(Mine(s, t), 1, w, 2, s.head);
    }
    StoreKeepsInv(s, t, 1, w, FirstCheck(w));
  }

  lemma FirstCheckLocal(h: Heap, head: Addr, recs: seq<H.Record>, recs': seq<H.Record>, rec: H.Record, t: Tid, l: Local)
    requires LocOk(h, head, recs, rec, t, l) && l.at.FirstCheck? && ListOk(h, head) && h[head].next == l.at.link
    requires |rec.slots| == 4
    ensures var a := l.at.link.ptr;
            && rec.slots[1] == Word(a, false) && (a != 0 ==> IsLinked(h, a))
            && LocOk(h, head, recs', if a == 0 then rec else H.Validated(rec, 1), t,
                     l.(at := if l.op.First? then ReadKey(a) else Advance(head, a)))
  {
    SuccessorLinked(h, head, head);
  }

  lemma FirstCheckStep(s: State, t: Tid)
    requires Turn(s, t) && s.locals[t].at.FirstCheck? && s.head in s.heap
    ensures Inv(DoFirstCheck(s, t))
  {
    hide Inv, ListOk;
    HeadLinked(s.heap, s.head);
    var w := s.locals[t].at.link;
    if s.heap[s.head].next != w {
      GotoKeepsInv(s, t, FirstLoad);
    } else {
      hide LocOk;
      FirstCheckLocal(s.heap, s.head, s.smr.recs, Validate(s, t, 1, w.ptr).smr.recs, Mine(s, t), t, s.locals[t]);
      ValidateKeepsInv(s, t, 1, w.ptr, if s.locals[t].op.First? then ReadKey(w.ptr) else Advance(s.head, w.ptr));
    }
  }

  // ---------------------------------------------------------------- one hop

  lemma NextLoadStep(s: State, t: Tid)
    requires Turn(s, t) && s.locals[t].at.NextLoad? && s.locals[t].at.cur in s.heap
    ensures Inv(DoNextLoad(s, t))
  {
    hide Inv, ListOk;
    var NextLoad(prev, cur) := s.locals[t].at;
    GotoKeepsInv(s, t, NextSet(prev, cur, s.heap[cur].next));
  }

  lemma NextSetStep(s: State, t: Tid)
    requires Turn(s, t) && s.locals[t].at.NextSet?
    ensures Inv(DoNextSet(s, t))
  {
    hide Inv, ListOk;
    var NextSet(prev, cur, w) := s.locals[t].at;
    if s.locals[t].node != 0 { StoreKeeps(Mine(s, t), 0, w, 3, s.locals[t].node); }
    StoreKeeps(Mine(s, t), 0, w, 2, prev);
    StoreKeeps(Mine(s, t), 0, w, 1, cur);
    StoreKeepsInv(s, t, 0, w, NextCheck(prev, cur, w));
  }

  lemma NextCheckStep(s: State, t: Tid)
    requires Turn(s, t) && s.locals[t].at.NextCheck? && s.locals[t].at.cur in s.heap
    ensures Inv(DoNextCheck(s, t))
  {
    hide Inv, ListOk;
    var NextCheck(prev, cur, w) := s.locals[t].at;
    if s.heap[cur].next != w {
      GotoKeepsInv(s, t, NextFail);
    } else if w.tag {
      GotoKeepsInv(s, t, PrevCheck(prev, cur, w));
    } else {
      SuccessorLinked(s.heap, s.head, cur);
      ValidateKeepsInv(s, t, 0, w.ptr, PrevCheck(prev, cur, w));
    }
  }

  lemma NextFailStep(s: State, t: Tid)
    requires Turn(s, t) && s.locals[t].at.NextFail?
    ensures Inv(DoNextFail(s, t))
  {
    hide Inv, ListOk;
    if s.locals[t].node != 0 { StoreKeeps(Mine(s, t), 0, NULL, 3, s.locals[t].node); }
    StoreKeepsInv(s, t, 0, NULL, FindStart);
  }

  lemma PrevCheckFacts(h: Heap, head: Addr, recs: seq<H.Record>, rec: H.Record, t: Tid, l: Local)
    requires LocOk(h, head, recs, rec, t, l) && l.at.PrevCheck?
    ensures l.at.cur != 0 && l.at.prev in h && !h[l.at.prev].stage.Private?
  {
  }

  /** find goes on only from neighbours: at that instant prev is in the list, unmarked, and leads to cur. */
  lemma PrevCheckStep(s: State, t: Tid)
    requires Turn(s, t) && s.locals[t].at.PrevCheck? && s.locals[t].at.prev in s.heap
    ensures Inv(DoPrevCheck(s, t))
    ensures var prev, cur := s.locals[t].at.prev, s.locals[t].at.cur;
            if s.heap[prev].next == Word(cur, false)
            then !DoPrevCheck(s, t).locals[t].at.FindStart? && IsLinked(s.heap, prev) && IsLinked(s.heap, cur)
            else DoPrevCheck(s, t).locals[t].at.FindStart?
  {
    hide Inv, ListOk;
    var PrevCheck(prev, cur, w) := s.locals[t].at;
    PrevCheckFacts(s.heap, s.head, s.smr.recs, Mine(s, t), t, s.locals[t]);
    if s.heap[prev].next == Word(cur, false) {
      SuccessorLinked(s.heap, s.head, prev);
    }
    if s.heap[prev].next != Word(cur, false) {
      GotoKeepsInv(s, t, FindStart);
    } else {
      GotoKeepsInv(s, t, if w.tag then UnlinkLoad(prev, cur) else DeadCheck(prev, cur, w.ptr));
    }
  }

  lemma DeadCheckFacts(h: Heap, head: Addr, recs: seq<H.Record>, rec: H.Record, t: Tid, l: Local)
    requires LocOk(h, head, recs, rec, t, l) && l.at.DeadCheck?
    ensures l.at.cur in h && l.at.cur != head && !h[l.at.cur].stage.Private?
  {
  }

  /** A dead cur goes on to be unlinked; a live one ends find at a key not below the one sought, or find advances. */
  lemma DeadCheckStep(s: State, t: Tid)
    requires Turn(s, t) && s.locals[t].at.DeadCheck? && s.locals[t].at.cur in s.heap
    ensures Inv(DoDeadCheck(s, t))
    ensures var at, at', cur := s.locals[t].at, DoDeadCheck(s, t).locals[t].at, s.locals[t].at.cur;
            var key := KeyOf(s.locals[t].op);
            if s.heap[cur].next.tag then at' == UnlinkLoad(at.prev, cur)
            else Live(s.heap, s.head, cur) &&
                 if s.heap[cur].key < key then at' == StepPrev(at.prev, cur, at.next)
                 else at' == Found(at.prev, cur, s.heap[cur].key == key)
  {
    hide Inv, ListOk;
    var DeadCheck(prev, cur, next) := s.locals[t].at;
    var key := KeyOf(s.locals[t].op);
    DeadCheckFacts(s.heap, s.head, s.smr.recs, Mine(s, t), t, s.locals[t]);
    if !s.heap[cur].next.tag {
      SuccessorLinked(s.heap, s.head, cur);
    }
    GotoKeepsInv(s, t,
      if s.heap[cur].next.tag then UnlinkLoad(prev, cur)
      else if s.heap[cur].key >= key then Found(prev, cur, s.heap[cur].key == key)
      else StepPrev(prev, cur, next));
  }

  /** hp2 := cur while hp1 still names it: cur is handed upward and never uncovered. */
  lemma StepPrevStep(s: State, t: Tid)
    requires Turn(s, t) && s.locals[t].at.StepPrev?
    ensures Inv(DoStepPrev(s, t))
  {
    hide Inv, ListOk;
    var StepPrev(prev, cur, next) := s.locals[t].at;
    var rec := Mine(s, t);
    StoreHandsUp(rec, 2, 1, cur);
    if next != 0 { StoreKeeps(rec, 2, Word(cur, false), 0, next); }
    if s.locals[t].node != 0 { StoreKeeps(rec, 2, Word(cur, false), 3, s.locals[t].node); }
    StoreKeepsInv(s, t, 2, Word(cur, false), StepCur(cur, next));
  }

  /** hp1 := next while hp0 still names it. */
  lemma StepCurStep(s: State, t: Tid)
    requires Turn(s, t) && s.locals[t].at.StepCur?
    ensures Inv(DoStepCur(s, t))
  {
    hide Inv, ListOk;
    var StepCur(prev, next) := s.locals[t].at;
    var rec := Mine(s, t);
    if next != 0 {
      StoreHandsUp(rec, 1, 0, next);
    }
    if s.locals[t].node != 0 { StoreKeeps(rec, 1, Word(next, false), 3, s.locals[t].node); }
    StoreKeeps(rec, 1, Word(next, false), 2, prev);
    StoreKeepsInv(s, t, 1, Word(next, false), Advance(prev, next));
  }
}
