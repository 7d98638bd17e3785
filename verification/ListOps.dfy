/** The remaining steps that change no node: failed compare-exchanges, reads and the way out. */
module ListOps {
  import opened Words
  import H = HazardPointers
  import opened ListMap
  import opened ListInv
  import opened ListFrame
  import opened ListQuiet
  import opened ListFind

  lemma UnlinkLoadStep(s: State, t: Tid)
    requires Turn(s, t) && s.locals[t].at.UnlinkLoad? && s.locals[t].at.cur in s.heap
    ensures Inv(DoUnlinkLoad(s, t))
  {
    hide Inv, ListOk;
    var UnlinkLoad(prev, cur) := s.locals[t].at;
    GotoKeepsInv(s, t, UnlinkCas(prev, cur, s.heap[cur].next));
  }

  lemma UnlinkFailStep(s: State, t: Tid)
    requires Turn(s, t) && s.locals[t].at.UnlinkCas? && s.locals[t].at.prev in s.heap && s.locals[t].at.cur in s.heap
    requires s.heap[s.locals[t].at.prev].next != Word(s.locals[t].at.cur, false)
    ensures Inv(DoUnlinkCas(s, t))
  {
    hide Inv, ListOk;
    GotoKeepsInv(s, t, FindStart);
  }

  lemma FoundStep(s: State, t: Tid)
    requires Turn(s, t) && s.locals[t].at.Found?
    ensures Inv(DoFound(s, t))
  {
    hide Inv, ListOk;
    var Found(prev, cur, m) := s.locals[t].at;
    GotoKeepsInv(s, t, AfterFind(s.locals[t], prev, cur, m));
  }

  lemma MarkLoadStep(s: State, t: Tid)
    requires Turn(s, t) && s.locals[t].at.MarkLoad? && s.locals[t].at.cur in s.heap
    ensures Inv(DoMarkLoad(s, t))
  {
    hide Inv, ListOk;
    var cur := s.locals[t].at.cur;
    GotoKeepsInv(s, t, MarkCas(cur, s.heap[cur].next));
  }

  lemma MarkFailStep(s: State, t: Tid)
    requires Turn(s, t) && s.locals[t].at.MarkCas? && s.locals[t].at.cur in s.heap
    requires s.heap[s.locals[t].at.cur].next != s.locals[t].at.link
    ensures Inv(DoMarkCas(s, t))
  {
    hide Inv, ListOk;
    GotoKeepsInv(s, t, MarkLoad(s.locals[t].at.cur));
  }

  lemma ReadValueStep(s: State, t: Tid)
    requires Turn(s, t) && s.locals[t].at.ReadValue? && s.locals[t].at.cur in s.heap
    ensures Inv(DoReadValue(s, t))
  {
    hide Inv, ListOk;
    GotoKeepsInv(s, t, ClearSlot(0, 2, true, s.heap[s.locals[t].at.cur].value));
  }

  lemma ReadKeyStep(s: State, t: Tid)
    requires Turn(s, t) && s.locals[t].at.ReadKey? && (s.locals[t].at.cur == 0 || s.locals[t].at.cur in s.heap)
    ensures Inv(DoReadKey(s, t))
  {
    hide Inv, ListOk;
    var cur := s.locals[t].at.cur;
    GotoKeepsInv(s, t, ClearSlot(1, 1, cur != 0, if cur == 0 then 0 else s.heap[cur].key));
  }

  lemma ProtectStep(s: State, t: Tid)
    requires Turn(s, t) && s.locals[t].at.Protect?
    ensures Inv(DoProtect(s, t))
  {
    hide Inv, ListOk;
    var Protect(prev, cur) := s.locals[t].at;
    var n := s.locals[t].node;
    StoreKeeps(Mine(s, t), 3, Word(n, false), 2, prev);
    if cur != 0 { StoreKeeps(Mine(s, t), 3, Word(n, false), 1, cur); }
    GuardKeepsInv(s, t, 3, n, LinkStore(prev, cur));
  }

  lemma LinkFailStep(s: State, t: Tid)
    requires Turn(s, t) && s.locals[t].at.LinkCas? && s.locals[t].at.prev in s.heap && s.locals[t].node in s.heap
    requires s.heap[s.locals[t].at.prev].next != Word(s.locals[t].at.cur, false)
    ensures Inv(DoLinkCas(s, t))
  {
    hide Inv, ListOk;
    GotoKeepsInv(s, t, FindStart);
  }

  lemma ReadHeightStep(s: State, t: Tid)
    requires Turn(s, t) && s.locals[t].at.ReadHeight? && s.locals[t].node in s.heap
    requires s.heap[s.locals[t].node].height >= 1
    ensures Inv(DoReadHeight(s, t))
  {
    hide Inv, ListOk;
    GotoKeepsInv(s, t, Tower(s.heap[s.locals[t].node].height - 1));
  }

  lemma ExitKeepsInv(s: State, t: Tid)
    requires Turn(s, t) && s.locals[t].at.Tower? && s.locals[t].at.over > 0
    ensures Inv(Goto(SetHazard(s, t, 1, MARKED_NULL), t, SubRefs(s.locals[t].at.over)))
  {
    hide Inv, ListOk;
    StoreKeeps(Mine(s, t), 1, MARKED_NULL, 3, s.locals[t].node);
    StoreKeepsInv(s, t, 1, MARKED_NULL, SubRefs(s.locals[t].at.over));
  }

  /** The index loop leaves on the head's marked null: nothing is linked, and all the overage is left to subtract. */
  lemma TowerStep(s: State, t: Tid, top: nat)
    requires Turn(s, t) && s.locals[t].at.Tower? && 0 < s.locals[t].at.over <= top <= |s.tower|
    ensures Inv(DoTower(s, t, top)) && s.tower[top - 1] == MARKED_NULL
    ensures var s' := DoTower(s, t, top);
            && s'.locals[t].at == SubRefs(s'.heap[s'.locals[t].node].height - 1)
            && s'.heap == s.heap && s'.tower == s.tower
  {
    TowerClosed(s);
    hide Inv, ListOk, LocOk;
    TowerHeight(s.heap, s.head, s.smr.recs, Mine(s, t), t, s.locals[t]);
    ExitKeepsInv(s, t);
    hide Turn, HasRecord, OwnsRecord;
    TowerExit(s, t, top);
  }

  lemma TowerExit(s: State, t: Tid, top: nat)
    requires HasRecord(s, t) && s.locals[t].at.Tower? && 0 < s.locals[t].at.over <= top <= |s.tower|
    requires s.tower[top - 1] == MARKED_NULL
    ensures DoTower(s, t, top) == Goto(SetHazard(s, t, 1, MARKED_NULL), t, SubRefs(s.locals[t].at.over))
  {
  }

  lemma TowerHeight(h: Heap, head: Addr, recs: seq<H.Record>, rec: H.Record, t: Tid, l: Local)
    requires LocOk(h, head, recs, rec, t, l) && l.at.Tower?
    ensures l.node in h && l.at.over == h[l.node].height - 1
  {
  }

  /** Another record's owner is not t, so it does not protect t's unpublished node. */
  lemma OnlyInserterHolds(s: State, t: Tid, n: Addr, q: nat, k: nat)
    requires Inv(s) && OwnsRecord(s, t) && n in s.heap && s.heap[n].stage.Private? && s.heap[n].inserter == Some(t)
    requires q < |s.smr.recs| && q != s.smr.pcs[t].r
    ensures !H.Protects(s.smr.recs[q], k, n)
  {
    assert k in s.smr.recs[q].safe ==> k < |s.smr.recs[q].slots| ==> s.smr.recs[q].slots[k].ptr in s.heap;
  }

  /** Once hp3 is cleared nothing protects insert's own node, so it may be freed. */
  lemma ClearLastUnheld(s: State, t: Tid)
    requires Inv(s) && OwnsRecord(s, t) && s.smr.k == 4
    requires var n := s.locals[t].node; n in s.heap && s.heap[n].stage.Private? && s.heap[n].inserter == Some(t)
    requires forall j :: j in Mine(s, t).safe ==> j >= 3
    ensures Unheld(SetHazard(s, t, 3, NULL).smr.recs, s.locals[t].node)
  {
    var n := s.locals[t].node;
    var recs := SetHazard(s, t, 3, NULL).smr.recs;
    forall q, k: nat | 0 <= q < |recs| ensures !H.Protects(recs[q], k, n) {
      if q != s.smr.pcs[t].r {
        assert recs[q] == s.smr.recs[q];
        OnlyInserterHolds(s, t, n, q, k);
      }
    }
  }

  lemma ClearSlotStep(s: State, t: Tid)
    requires Turn(s, t) && s.locals[t].at.ClearSlot? && s.locals[t].at.slot < 4 && s.smr.k == 4
    ensures Inv(DoClearSlot(s, t))
  {
    hide Inv, ListOk, H.Inv;
    var ClearSlot(k, last, result, out) := s.locals[t].at;
    var n := s.locals[t].node;
    if n != 0 && k == 3 {
      ClearLastUnheld(s, t);
    }
    if n != 0 && k < 3 {
      StoreKeeps(Mine(s, t), k, NULL, 3, n);
    }
    StoreKeepsInv(s, t, k, NULL,
      if k < last then ClearSlot(k + 1, last, result, out) else if n != 0 then FreeOwn(result, out)
          else Returned(result, out));
  }
}
