/** The transition relation of the concurrent list and the invariant every step keeps. */
module ListInv {
  import opened Words
  import H = HazardPointers
  import opened ListMap

  // ---------------------------------------------------------------- transitions

  ghost predicate OpOk(op: Op)
    reads {}
  {
    op.Insert? ==> 1 <= op.height <= MAX_HEIGHT
  }

  predicate Between(at: Loc)
    reads {}
  {
    at.Idle? || at.Returned?
  }

  /** The addresses the next access of t goes through. */
  function Touched(s: State, l: Local): set<Addr>
    reads {}
  {
    var at := l.at;
    if at.FirstLoad? || at.FirstCheck? then {s.head}
    else if at.UnlinkCas? then {at.prev, at.cur}
    else if at.LinkCas? then {at.prev, l.node}
    else if at.PrevCheck? then {at.prev}
    else if at.LinkStore? || at.ReadHeight? || at.SubRefs? || at.FreeOwn? then {l.node}
    else if at.ReadKey? && at.cur == 0 then {}
    else if at.NextLoad? || at.NextCheck? || at.DeadCheck? || at.UnlinkLoad? || at.DropRef? || at.RetireDead?
            || at.MarkLoad? || at.MarkCas? || at.ReadValue? || at.ReadKey? || at.RetireOwn? then {at.cur}
    else {}
  }

  /**
   * Why thread t, with record rec, may go through a: it is the head, a slot of its own
   * record protects it, t owes it the decrement or the call of retireNode, or it is t's
   * own unpublished node.
   */
  ghost predicate Covered(h: Heap, head: Addr, rec: H.Record, t: Tid, a: Addr)
    reads {}
  {
    && a in h
    && (|| a == head
        || (exists k: nat {:trigger H.Protects(rec, k, a)} :: k < 4 && H.Protects(rec, k, a))
        || h[a].stage == Unlinking(t) || h[a].stage == Doomed(t)
        || (h[a].stage.Private? && h[a].inserter == Some(t)))
  }

  /** Every address the next access of t goes through is allocated. */
  predicate CanWork(s: State, t: Tid)
    reads {}
  {
    && HasRecord(s, t)
    && Touched(s, s.locals[t]) <= s.heap.Keys
    && (s.locals[t].at.ClearSlot? ==> s.locals[t].at.slot < 4)
    && (s.locals[t].at.ReadHeight? ==> s.heap[s.locals[t].node].height >= 1)
  }

  /** The deterministic steps inside an operation. */
  function Work(s: State, t: Tid): State
    requires CanWork(s, t)
    reads {}
  {
    var at := s.locals[t].at;
    match at
    case FindStart => DoFindStart(s, t)
    case FirstLoad => DoFirstLoad(s, t)
    case FirstSet(_) => DoFirstSet(s, t)
    case FirstCheck(_) => DoFirstCheck(s, t)
    case NextLoad(_, _) => DoNextLoad(s, t)
    case NextSet(_, _, _) => DoNextSet(s, t)
    case NextCheck(_, _, _) => DoNextCheck(s, t)
    case NextFail => DoNextFail(s, t)
    case PrevCheck(_, _, _) => DoPrevCheck(s, t)
    case DeadCheck(_, _, _) => DoDeadCheck(s, t)
    case StepPrev(_, _, _) => DoStepPrev(s, t)
    case StepCur(_, _) => DoStepCur(s, t)
    case UnlinkLoad(_, _) => DoUnlinkLoad(s, t)
    case UnlinkCas(_, _, _) => DoUnlinkCas(s, t)
    case DropRef(_, _) => DoDropRef(s, t)
    case RetireDead(_, _) => DoRetireDead(s, t)
    case Found(_, _, _) => DoFound(s, t)
    case MarkLoad(_) => DoMarkLoad(s, t)
    case MarkCas(_, _) => DoMarkCas(s, t)
    case ReadValue(_) => DoReadValue(s, t)
    case ReadKey(_) => DoReadKey(s, t)
    case Protect(_, _) => DoProtect(s, t)
    case LinkStore(_, _) => DoLinkStore(s, t)
    case LinkCas(_, _) => DoLinkCas(s, t)
    case ReadHeight => DoReadHeight(s, t)
    case SubRefs(_) => DoSubRefs(s, t)
    case RetireOwn(_) => DoRetireOwn(s, t)
    case ClearSlot(_, _, _, _) => DoClearSlot(s, t)
    case FreeOwn(_, _) => DoFreeOwn(s, t)
    case _ => s
  }

  /** Whatever a step of t may be that stays inside its call and moves no other thread. */
  ghost predicate OpenStep(s: State, s': State, t: Tid)
    requires t in s.locals
    reads {}
  {
    && s'.locals.Keys == s.locals.Keys && s'.locals[t].op == s.locals[t].op && s'.locals[t].calls == s.locals[t].calls
    && forall u :: u in s.locals && u != t ==> s'.locals[u] == s.locals[u]
  }

  /**
   * The index loop: from some level not below n's, it leaves at its first load if the link
   * it loads is marked. What it does to nodes, links and records otherwise is left open.
   */
  ghost predicate TowerNext(s: State, s': State, t: Tid)
    requires t in s.locals && s.locals[t].at.Tower?
    reads {}
  {
    && HasRecord(s, t)
    && exists top: nat :: s.locals[t].at.over <= top <= |s.tower|
         && if top == 0 || Marked0(s.tower[top - 1]) then s' == DoTower(s, t, top) else OpenStep(s, s', t)
  }

  /** Thread t takes one step from s to s'. Any thread may take the next one. */
  ghost predicate Next(s: State, s': State, t: Tid)
    reads {}
  {
    && t in s.locals && t in s.smr.pcs && H.Slots(s.smr) && H.PcOk(s.smr, s.smr.pcs[t])
    && var at := s.locals[t].at;
       if !s.smr.pcs[t].Ready? then s' == DoReclaim(s, t)
       else if Between(at) then
         s' == DoReclaim(s, t) || exists op :: OpOk(op) && s' == Invoke(s, t, op)
       else if at.NewNode? && s.locals[t].op.Insert? then
         exists a: Addr :: a != 0 && a !in s.heap && s' == DoNewNode(s, t, a)
       else if at.Tower? then
         TowerNext(s, s', t)
       else CanWork(s, t) && s' == Work(s, t)
  }

  // ---------------------------------------------------------------- nodes and order

  /** link_count: one for the linked level 0 or its pending unlink, plus the overage not yet subtracted. */
  function Refs(n: Node): int
    reads {}
  {
    if n.stage.Private? then n.height
    else (if n.stage.Linked? || n.stage.Unlinking? then 1 else 0) + (if n.inserter.Some? then n.height - 1 else 0)
  }

  ghost predicate NodeOk(n: Node)
    reads {}
  {
    && 1 <= n.height <= MAX_HEIGHT
    && n.links == Refs(n)
    && (n.stage.Private? ==> !n.next.tag && n.inserter.Some?)
    && (n.inserter.Some? && !n.stage.Private? ==> n.height > 1)
    && (n.stage.Unlinking? || n.stage.Limbo? || n.stage.Doomed? || n.stage.Retired? ==> n.next.tag)
    && (n.stage.Limbo? ==> n.inserter.Some?)
    && (n.stage.Doomed? || n.stage.Retired? ==> n.inserter.None?)
  }

  ghost predicate NodesOk(h: Heap, head: Addr)
    reads {}
  {
    && 0 !in h && IsLinked(h, head) && !h[head].next.tag
    && (forall a :: a in h && a != head ==> NodeOk(h[a]))
  }

  /** Links lead to linked nodes further on. */
  ghost predicate LinksForward(h: Heap, head: Addr)
    reads {}
  {
    forall a {:trigger h[a].next.ptr} :: IsLinked(h, a) && h[a].next.ptr != 0 ==>
      IsLinked(h, h[a].next.ptr) && Before(h, head, a, h[a].next.ptr)
  }

  /** No linked node is skipped: whatever comes after a is its successor or comes after that. */
  ghost predicate NoGaps(h: Heap, head: Addr)
    reads {}
  {
    forall a, c {:trigger IsLinked(h, a), IsLinked(h, c)} ::
        IsLinked(h, a) && IsLinked(h, c) && Before(h, head, a, c) ==>
      var b := h[a].next.ptr;
      b != 0 && (b == c || (b in h && Before(h, head, b, c)))
  }

  ghost predicate KeysDiffer(h: Heap, head: Addr)
    reads {}
  {
    forall a, c {:trigger IsLinked(h, a), IsLinked(h, c)} :: IsLinked(h, a) && IsLinked(h, c) && a != c ==>
      Before(h, head, a, c) || Before(h, head, c, a)
  }

  ghost predicate ListOk(h: Heap, head: Addr)
    reads {}
  {
    NodesOk(h, head) && LinksForward(h, head) && NoGaps(h, head) && KeysDiffer(h, head)
  }

  // ---------------------------------------------------------------- reclamation

  ghost predicate RetiredArePending(s: State)
    reads {}
  {
    forall a :: a in H.Pending(s.smr.recs) <==> a in s.heap && s.heap[a].stage.Retired?
  }

  /** q is the record of the thread inserting a. */
  predicate InsertedBy(s: State, a: Addr, q: nat)
    requires a in s.heap
    reads {}
  {
    var u := s.heap[a].inserter;
    u.Some? && u.value in s.smr.pcs && H.RecOf(s.smr.pcs[u.value]) == Some(q)
  }

  /** What a slot protects is allocated; an unpublished node is protected only by its inserter. */
  ghost predicate HeldAllocated(s: State)
    reads {}
  {
    forall q, k {:trigger k in s.smr.recs[q].safe} ::
      0 <= q < |s.smr.recs| && k in s.smr.recs[q].safe && k < |s.smr.recs[q].slots| ==>
        var a := s.smr.recs[q].slots[k].ptr;
        a in s.heap && (s.heap[a].stage.Private? ==> InsertedBy(s, a, q))
  }

  // ---------------------------------------------------------------- threads

  ghost predicate Unheld(recs: seq<H.Record>, a: Addr)
    reads {}
  {
    forall q, k: nat {:trigger k in recs[q].safe} :: 0 <= q < |recs| ==> !H.Protects(recs[q], k, a)
  }

  /** Slot k protects a, and a is a published node. */
  ghost predicate Guards(h: Heap, rec: H.Record, k: nat, a: Addr)
    reads {}
  {
    H.Protects(rec, k, a) && a in h && !h[a].stage.Private?
  }

  ghost predicate PrevOk(h: Heap, head: Addr, rec: H.Record, prev: Addr, key: int)
    reads {}
  {
    Guards(h, rec, 2, prev) && (prev == head || h[prev].key < key)
  }

  /** Slot k guards b, which comes after a. */
  ghost predicate AfterOk(h: Heap, head: Addr, rec: H.Record, k: nat, a: Addr, b: Addr)
    reads {}
  {
    Guards(h, rec, k, b) && a in h && Before(h, head, a, b)
  }

  /** Insert's node before it is published. */
  ghost predicate MineOk(h: Heap, head: Addr, t: Tid, l: Local)
    reads {}
  {
    && l.node in h && l.op.Insert? && l.node != head
    && h[l.node].stage.Private? && h[l.node].inserter == Some(t)
    && h[l.node].key == l.op.key && h[l.node].value == l.op.value && h[l.node].height == l.op.height
  }

  /** ... and kept by hp3. */
  ghost predicate KeptOk(rec: H.Record, a: Addr)
    reads {}
  {
    H.Protects(rec, 3, a)
  }

  /** Insert's node after it is published: hp3 keeps it, and height > 1 still owes the overage. */
  ghost predicate PublishedOk(h: Heap, head: Addr, rec: H.Record, t: Tid, l: Local)
    reads {}
  {
    && Guards(h, rec, 3, l.node) && l.op.Insert? && l.node != head && l.node != 0
    && h[l.node].height == l.op.height
    && (l.op.height > 1 ==> h[l.node].inserter == Some(t))
  }

  /** The node find treats as prev at a location, in hp2; 0 if it needs none. */
  function PrevOf(l: Local, head: Addr): Addr
    reads {}
  {
    var at := l.at;
    if at.FirstLoad? || at.FirstSet? || at.FirstCheck? then if l.op.First? then 0 else head
    else if HopAt(at) || LinkAt(at) || at.StepCur? || at.DropRef? || at.RetireDead? || at.Found? then at.prev
    else 0
  }

  /** The node in hp1, if the location relies on it. */
  function CurOf(at: Loc): Addr
    reads {}
  {
    if HopAt(at) || LinkAt(at) || EraseAt(at) || at.Found? || at.ReadValue? || at.ReadKey? then at.cur else 0
  }

  /** The node in hp0, if the location relies on it. */
  function NextOf(at: Loc): Addr
    reads {}
  {
    if at.PrevCheck? then if at.link.tag then 0 else at.link.ptr
    else if at.DeadCheck? || at.StepPrev? || at.StepCur? then at.next
    else 0
  }

  /** From mkNode to the publishing CAS, or to giving the node up. */
  predicate OwnsUnpublished(l: Local)
    reads {}
  {
    l.node != 0 && !l.at.ReadHeight? && !l.at.Tower? && !l.at.SubRefs?
  }

  predicate HopAt(at: Loc)
    reads {}
  {
    at.NextLoad? || at.NextSet? || at.NextCheck? || at.PrevCheck? || at.DeadCheck? || at.StepPrev?
        || at.UnlinkLoad? || at.UnlinkCas?
  }

  predicate FindAt(at: Loc)
    reads {}
  {
    HopAt(at) || at.FindStart? || at.NextFail? || at.StepCur? || at.DropRef? || at.RetireDead? || at.Found?
  }

  predicate LinkAt(at: Loc)
    reads {}
  {
    at.NewNode? || at.Protect? || at.LinkStore? || at.LinkCas?
  }

  predicate EraseAt(at: Loc)
    reads {}
  {
    at.MarkLoad? || at.MarkCas?
  }

  /** Which operations pass through a location, and which nodes it must name. */
  predicate Fits(l: Local)
    reads {}
  {
    && (FindAt(l.at) ==> !l.op.First?)
    && (HopAt(l.at) || LinkAt(l.at) || l.at.StepCur? || l.at.DropRef? || l.at.RetireDead? || l.at.Found? ==>
         l.at.prev != 0)
    && (HopAt(l.at) ==> l.at.cur != 0)
    && (LinkAt(l.at) || l.at.RetireOwn? ==> l.op.Insert?)
    && (EraseAt(l.at) ==> l.op.Erase? && l.at.cur != 0)
    && (l.at.ReadValue? ==> l.op.Lookup? && l.at.cur != 0)
    && (l.at.ReadKey? ==> l.op.First?)
    && (EraseAt(l.at) || l.at.ReadValue? || l.at.ReadKey? || l.at.NewNode? || l.at.RetireOwn? ==> l.node == 0)
    && (l.at.Protect? || l.at.LinkStore? || l.at.LinkCas? || l.at.FreeOwn? ==> l.node != 0)
    && (l.at.ClearSlot? ==> l.at.slot <= l.at.last <= 3 && (l.node != 0 ==> l.at.last == 3))
    && (l.node != 0 ==> l.op.Insert?)
  }

  /** How the key sought compares with the keys of the nodes found. */
  ghost predicate KeysOk(h: Heap, l: Local, cur: Addr)
    requires cur in h
    reads {}
  {
    var key := KeyOf(l.op);
    && (l.at.Found? ==> h[cur].key >= key && (l.at.match_ <==> h[cur].key == key))
    && (l.at.StepPrev? ==> h[cur].key < key)
    && (EraseAt(l.at) || l.at.ReadValue? ==> h[cur].key == key)
    && (LinkAt(l.at) ==> h[cur].key > key)
  }

  /** The hazard slots that a call clears before it returns. */
  function FirstSlot(op: Op): nat
    reads {}
  {
    if op.First? then 1 else 0
  }

  function LastSlot(op: Op): nat
    reads {}
  {
    if op.First? then 1 else if op.Insert? then 3 else 2
  }

  predicate Cleared(rec: H.Record, from: nat, to: nat)
    reads {}
  {
    forall k :: from <= k < to && k < |rec.slots| ==> rec.slots[k] == NULL
  }

  /** What a location has learnt from the last loads and stores. */
  ghost predicate SeenOk(h: Heap, recs: seq<H.Record>, rec: H.Record, t: Tid, l: Local)
    reads {}
  {
    var at := l.at;
    && (at.FirstCheck? ==> 1 < |rec.slots| && rec.slots[1] == at.link)
    && (at.NextCheck? ==> 0 < |rec.slots| && rec.slots[0] == at.link)
    && (at.PrevCheck? && at.link.tag ==> at.cur in h && h[at.cur].next.tag)
    && (at.UnlinkLoad? ==> at.cur in h && h[at.cur].next.tag)
    && (at.UnlinkCas? ==> at.link.tag && at.cur in h && h[at.cur].next == at.link)
    && (at.DropRef? ==> at.cur in h && h[at.cur].stage == Unlinking(t))
    && (at.RetireDead? || at.RetireOwn? ==> at.cur in h && h[at.cur].stage == Doomed(t))
    && (at.Found? && at.cur == 0 ==> !at.match_)
    && (at.Protect? || at.FreeOwn? ==> Unheld(recs, l.node))
    && (at.LinkCas? ==> l.node in h && h[l.node].next == Word(at.cur, false))
    && (at.Tower? || at.SubRefs? ==> l.op.Insert? && at.over == l.op.height - 1)
    && (at.SubRefs? ==> at.over > 0)
    && (at.ClearSlot? && l.node != 0 ==> forall j :: j in rec.safe ==> j >= at.slot)
    && (at.ClearSlot? ==> at.last == LastSlot(l.op) && Cleared(rec, FirstSlot(l.op), at.slot))
    && (at.FreeOwn? ==> Cleared(rec, 0, 4))
  }

  ghost predicate LocOk(h: Heap, head: Addr, recs: seq<H.Record>, rec: H.Record, t: Tid, l: Local)
    reads {}
  {
    var prev, cur, next := PrevOf(l, head), CurOf(l.at), NextOf(l.at);
    && Fits(l)
    && (prev != 0 ==> PrevOk(h, head, rec, prev, KeyOf(l.op)))
    && (cur != 0 ==> Guards(h, rec, 1, cur) && cur != head && KeysOk(h, l, cur))
    && (cur != 0 && prev != 0 ==> AfterOk(h, head, rec, 1, prev, cur))
    && (next != 0 ==> AfterOk(h, head, rec, 0, if cur != 0 then cur else prev, next))
    && (OwnsUnpublished(l) ==> MineOk(h, head, t, l) && (l.at.Protect? || l.at.FreeOwn? || KeptOk(rec, l.node)))
    && (l.at.ReadHeight? || l.at.Tower? || l.at.SubRefs? ==> PublishedOk(h, head, rec, t, l))
    && SeenOk(h, recs, rec, t, l)
  }

  ghost predicate LocalOk(s: State, t: Tid)
    requires t in s.locals && t in s.smr.pcs
    reads {}
  {
    var l := s.locals[t];
    var pc := s.smr.pcs[t];
    && OpOk(l.op)
    && if Between(l.at) then l.node == 0
       else
         && H.RecOf(pc).Some? && !pc.Leave? && H.RecOf(pc).value < |s.smr.recs|
         && LocOk(s.heap, s.head, s.smr.recs, s.smr.recs[H.RecOf(pc).value], t, l)
  }

  /** Work owed on a node names a thread that is about to do it. */
  ghost predicate OwedAt(locals: map<Tid, Local>, h: Heap, a: Addr)
    requires a in h
    reads {}
  {
    && (h[a].stage.Unlinking? ==>
          var u := h[a].stage.who; u in locals && locals[u].at.DropRef? && locals[u].at.cur == a)
    && (h[a].stage.Doomed? ==>
          var u := h[a].stage.who;
          u in locals && (locals[u].at.RetireDead? || locals[u].at.RetireOwn?) && locals[u].at.cur == a)
    && (h[a].inserter.Some? ==>
          var u := h[a].inserter.value; u in locals && locals[u].node == a)
  }

  ghost predicate Owed(s: State)
    reads {}
  {
    forall a {:trigger s.heap[a]} :: a in s.heap ==> OwedAt(s.locals, s.heap, a)
  }

  ghost predicate LocalsOk(s: State)
    reads {}
  {
    && s.locals.Keys == s.smr.pcs.Keys
    && (forall t :: t in s.locals ==> LocalOk(s, t))
  }

  /** The head's links above level 0 are the marked nulls mkNode put there: no index level is open. */
  predicate Closed(tower: seq<Word>)
    reads {}
  {
    |tower| == MAX_HEIGHT - 1 && forall i :: 0 <= i < |tower| ==> tower[i] == MARKED_NULL
  }

  ghost predicate Inv(s: State)
    reads {}
  {
    && H.Inv(s.smr) && s.smr.k == 4 && Closed(s.tower)
    && ListOk(s.heap, s.head) && RetiredArePending(s) && HeldAllocated(s) && Owed(s) && LocalsOk(s)
  }

  ghost predicate Init(s: State)
    reads {}
  {
    && H.Init(s.smr) && s.smr.k == 4
    && s.head != 0 && s.heap.Keys == {s.head}
    && s.heap[s.head].next == NULL && s.heap[s.head].stage == Linked && s.heap[s.head].inserter.None?
    && s.locals.Keys == s.smr.pcs.Keys
    && (forall t :: t in s.locals ==>
         s.locals[t].at == Idle && s.locals[t].node == 0 && !s.locals[t].helping
         && OpOk(s.locals[t].op) && s.locals[t].calls == 0)
    && Closed(s.tower) && s.pubs == 0 && s.wins == 0
  }
}
