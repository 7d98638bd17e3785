/**
 * The level-0 list of the concurrent skip list map as a state machine: any number
 * of threads inside insert, erase, find and firstKey, one atomic access per step,
 * with the hazard-pointer machine underneath. Addresses are reused: a freed node's
 * address may be handed out again by the very next allocation.
 */
module ListMap {
  import opened Words
  import H = HazardPointers

  /**
   * Where a node is in its life (history). Unlinking and Doomed name the thread that
   * owes the next step: the decrement of link_count, or the call of retireNode.
   */
  datatype Stage = Private | Linked | Unlinking(who: Tid) | Limbo | Doomed(who: Tid) | Retired

  /**
   * `links` is the 8-bit link_count. `inserter` is history: the thread inside insert
   * that still has to publish the node or to subtract its overage.
   */
  datatype Node = Node(
    key: int,
    value: int,
    height: nat,
    links: int,
    next: Word,
    stage: Stage,
    inserter: Option<Tid>)

  type Heap = map<Addr, Node>

  const MAX_HEIGHT := 12

  datatype Op =
    | Insert(key: int, value: int, height: nat)
    | Erase(key: int)
    | Lookup(key: int)
    | First

  /** The next atomic access of a thread, with the local variables still needed. */
  datatype Loc =
    | Idle
    | Returned(result: bool, out: int)
    | FindStart                                   // try_again: hp2 := head
    | FirstLoad                                   // cur := head->next
    | FirstSet(link: Word)                        // hp1 := cur
    | FirstCheck(link: Word)                      // head->next == cur ?
    | NextLoad(prev: Addr, cur: Addr)             // next := cur->next
    | NextSet(prev: Addr, cur: Addr, link: Word)  // hp0 := next
    | NextCheck(prev: Addr, cur: Addr, link: Word)// cur->next == next ?
    | NextFail                                    // clear hp0, then try again
    | PrevCheck(prev: Addr, cur: Addr, link: Word)// prev->next == cur ?
    | DeadCheck(prev: Addr, cur: Addr, next: Addr)// cur->dead(), then compare keys
    | StepPrev(prev: Addr, cur: Addr, next: Addr) // prev := cur; hp2 := prev
    | StepCur(prev: Addr, next: Addr)             // cur := next; hp1 := cur
    | UnlinkLoad(prev: Addr, cur: Addr)           // nexti := cur->next
    | UnlinkCas(prev: Addr, cur: Addr, link: Word)// CAS prev->next from cur to clear(nexti)
    | DropRef(prev: Addr, cur: Addr)              // --cur->link_count
    | RetireDead(prev: Addr, cur: Addr)           // clear hp1; retireNode(cur)
    | Found(prev: Addr, cur: Addr, match_: bool)  // find returns
    | MarkLoad(cur: Addr)                         // erase: nexti := cur->next
    | MarkCas(cur: Addr, link: Word)              // erase: CAS cur->next from nexti to mark(nexti)
    | ReadValue(cur: Addr)                        // find: *value := cur->value
    | ReadKey(cur: Addr)                          // firstKey: read cur->key
    | NewNode(prev: Addr, cur: Addr)              // insert: mkNode
    | Protect(prev: Addr, cur: Addr)              // insert: hp3 := n
    | LinkStore(prev: Addr, cur: Addr)            // insert: n->next := cur
    | LinkCas(prev: Addr, cur: Addr)              // insert: CAS prev->next from cur to n
    | ReadHeight                                  // insert: overage := n->height - 1
    | Tower(over: nat)                            // insert: the index loop, from its first load
    | SubRefs(over: nat)                          // insert: n->link_count -= overage
    | RetireOwn(cur: Addr)                        // insert: retireNode(n)
    | ClearSlot(slot: nat, last: nat, result: bool, out: int)
    | FreeOwn(result: bool, out: int)             // insert: freeNode(n), never published

  /**
   * `node` is insert's n while it is owed work; `helping` and `won` are erase's state
   * after its marking CAS; `calls` counts invocations (history).
   */
  datatype Local = Local(op: Op, node: Addr, helping: bool, won: bool, calls: nat, at: Loc)

  /**
   * `tower` is the head's links above level 0: tower[i - 1] is the one at level i. `pubs`
   * and `wins` count publishing CASes and first markings (history).
   */
  datatype State = State(
    smr: H.Smr,
    heap: Heap,
    head: Addr,
    tower: seq<Word>,
    locals: map<Tid, Local>,
    pubs: nat,
    wins: nat)

  // ---------------------------------------------------------------- reading the state

  function KeyOf(op: Op): int
    reads {}
  {
    match op
    case Insert(k, _, _) => k
    case Erase(k) => k
    case Lookup(k) => k
    case First => 0
  }

  predicate IsLinked(h: Heap, a: Addr)
    reads {}
  {
    a in h && h[a].stage.Linked?
  }

  /** In the list, not the head, and not marked: an entry of the map. */
  predicate Live(h: Heap, head: Addr, a: Addr)
    reads {}
  {
    IsLinked(h, a) && a != head && !h[a].next.tag
  }

  /** List order: the head first, then by key. */
  predicate Before(h: Heap, head: Addr, a: Addr, c: Addr)
    requires a in h && c in h
    reads {}
  {
    c != head && (a == head || h[a].key < h[c].key)
  }

  // ---------------------------------------------------------------- updating the state

  function Goto(s: State, t: Tid, at: Loc): State
    requires t in s.locals
    reads {}
  {
    s.(locals := s.locals[t := s.locals[t].(at := at)])
  }

  function SetNode(s: State, a: Addr, n: Node): State
    reads {}
  {
    s.(heap := s.heap[a := n])
  }

  /** The record of thread t, which is between reclamation calls. */
  predicate HasRecord(s: State, t: Tid)
    reads {}
  {
    t in s.locals && t in s.smr.pcs && s.smr.pcs[t].Ready? && s.smr.pcs[t].r < |s.smr.recs|
    && |s.smr.recs[s.smr.pcs[t].r].slots| == 4
  }

  function SetHazard(s: State, t: Tid, k: nat, w: Word): State
    requires HasRecord(s, t) && k < 4
    reads {}
  {
    s.(smr := H.SetSlot(s.smr, s.smr.pcs[t].r, k, w))
  }

  /** A re-validating load succeeded: slot k, which names a, now protects it. */
  function Validate(s: State, t: Tid, k: nat, a: Addr): State
    requires HasRecord(s, t) && k < 4
    reads {}
  {
    if a == 0 then s else s.(smr := H.Hold(s.smr, s.smr.pcs[t].r, k))
  }

  // ---------------------------------------------------------------- find

  function DoFindStart(s: State, t: Tid): State
    requires HasRecord(s, t)
    reads {}
  {
    Goto(Validate(SetHazard(s, t, 2, Word(s.head, false)), t, 2, s.head), t, FirstLoad)
  }

  function DoFirstLoad(s: State, t: Tid): State
    requires t in s.locals && s.head in s.heap
    reads {}
  {
    Goto(s, t, FirstSet(s.heap[s.head].next))
  }

  function DoFirstSet(s: State, t: Tid): State
    requires HasRecord(s, t) && s.locals[t].at.FirstSet?
    reads {}
  {
    var w := s.locals[t].at.link;
    Goto(SetHazard(s, t, 1, w), t, FirstCheck(w))
  }

  /** The head of find's inner loop: a null cur ends it. */
  function Advance(prev: Addr, cur: Addr): Loc
    reads {}
  {
    if cur == 0 then Found(prev, 0, false) else NextLoad(prev, cur)
  }

  function DoFirstCheck(s: State, t: Tid): State
    requires HasRecord(s, t) && s.head in s.heap && s.locals[t].at.FirstCheck?
    reads {}
  {
    var w := s.locals[t].at.link;
    if s.heap[s.head].next != w then Goto(s, t, FirstLoad)
    else if s.locals[t].op.First? then
      if Marked0(w) then Goto(s, t, FirstLoad) else Goto(Validate(s, t, 1, w.ptr), t, ReadKey(w.ptr))
    else if Marked0(w) then Goto(s, t, FindStart)
    else Goto(Validate(s, t, 1, w.ptr), t, Advance(s.head, w.ptr))
  }

  function DoNextLoad(s: State, t: Tid): State
    requires t in s.locals && s.locals[t].at.NextLoad? && s.locals[t].at.cur in s.heap
    reads {}
  {
    var NextLoad(prev, cur) := s.locals[t].at;
    Goto(s, t, NextSet(prev, cur, s.heap[cur].next))
  }

  function DoNextSet(s: State, t: Tid): State
    requires HasRecord(s, t) && s.locals[t].at.NextSet?
    reads {}
  {
    var NextSet(prev, cur, w) := s.locals[t].at;
    Goto(SetHazard(s, t, 0, w), t, NextCheck(prev, cur, w))
  }

  function DoNextCheck(s: State, t: Tid): State
    requires HasRecord(s, t) && s.locals[t].at.NextCheck? && s.locals[t].at.cur in s.heap
    reads {}
  {
    var NextCheck(prev, cur, w) := s.locals[t].at;
    if s.heap[cur].next != w then Goto(s, t, NextFail)
    else if Marked0(w) then Goto(s, t, PrevCheck(prev, cur, w))
    else Goto(Validate(s, t, 0, w.ptr), t, PrevCheck(prev, cur, w))
  }

  function DoNextFail(s: State, t: Tid): State
    requires HasRecord(s, t)
    reads {}
  {
    Goto(SetHazard(s, t, 0, NULL), t, FindStart)
  }

  function DoPrevCheck(s: State, t: Tid): State
    requires t in s.locals && s.locals[t].at.PrevCheck? && s.locals[t].at.prev in s.heap
    reads {}
  {
    var PrevCheck(prev, cur, w) := s.locals[t].at;
    if s.heap[prev].next != Word(cur, false) then Goto(s, t, FindStart)
    else if Marked0(w) then Goto(s, t, UnlinkLoad(prev, cur))
    else Goto(s, t, DeadCheck(prev, cur, w.ptr))
  }

  function DoDeadCheck(s: State, t: Tid): State
    requires t in s.locals && s.locals[t].at.DeadCheck? && s.locals[t].at.cur in s.heap
    reads {}
  {
    var DeadCheck(prev, cur, next) := s.locals[t].at;
    var key := KeyOf(s.locals[t].op);
    if Marked0(s.heap[cur].next) then Goto(s, t, UnlinkLoad(prev, cur))
    else if s.heap[cur].key >= key then Goto(s, t, Found(prev, cur, s.heap[cur].key == key))
    else Goto(s, t, StepPrev(prev, cur, next))
  }

  function DoStepPrev(s: State, t: Tid): State
    requires HasRecord(s, t) && s.locals[t].at.StepPrev?
    reads {}
  {
    var StepPrev(_, cur, next) := s.locals[t].at;
    Goto(SetHazard(s, t, 2, Word(cur, false)), t, StepCur(cur, next))
  }

  function DoStepCur(s: State, t: Tid): State
    requires HasRecord(s, t) && s.locals[t].at.StepCur?
    reads {}
  {
    var StepCur(prev, next) := s.locals[t].at;
    Goto(SetHazard(s, t, 1, Word(next, false)), t, Advance(prev, next))
  }

  function DoUnlinkLoad(s: State, t: Tid): State
    requires t in s.locals && s.locals[t].at.UnlinkLoad? && s.locals[t].at.cur in s.heap
    reads {}
  {
    var UnlinkLoad(prev, cur) := s.locals[t].at;
    Goto(s, t, UnlinkCas(prev, cur, s.heap[cur].next))
  }

  function DoUnlinkCas(s: State, t: Tid): State
    requires t in s.locals && s.locals[t].at.UnlinkCas?
    requires s.locals[t].at.prev in s.heap && s.locals[t].at.cur in s.heap
    reads {}
  {
    var UnlinkCas(prev, cur, w) := s.locals[t].at;
    if s.heap[prev].next != Word(cur, false) then Goto(s, t, FindStart)
    else
      var heap := s.heap[prev := s.heap[prev].(next := Clear(w))];
      Goto(s.(heap := heap[cur := heap[cur].(stage := Unlinking(t))]), t, DropRef(prev, cur))
  }

  /** Unsigned 8-bit subtraction. */
  function Sub8(x: int, y: int): int
    reads {}
  {
    (x - y) % 256
  }

  function DoDropRef(s: State, t: Tid): State
    requires t in s.locals && s.locals[t].at.DropRef? && s.locals[t].at.cur in s.heap
    reads {}
  {
    var DropRef(prev, cur) := s.locals[t].at;
    var links := Sub8(s.heap[cur].links, 1);
    var n := s.heap[cur].(links := links, stage := if links == 0 then Doomed(t) else Limbo);
    Goto(SetNode(s, cur, n), t, if links == 0 then RetireDead(prev, cur) else Found(prev, 0, false))
  }

  /** clearHazard(1) and the push_back of retireNode; the scan it may trigger runs before find goes on. */
  function DoRetireDead(s: State, t: Tid): State
    requires HasRecord(s, t) && s.locals[t].at.RetireDead? && s.locals[t].at.cur in s.heap
    reads {}
  {
    var RetireDead(prev, cur) := s.locals[t].at;
    var s1 := SetHazard(s, t, 1, NULL);
    var s2 := s1.(smr := H.RetireNode(s1.smr, t, s.smr.pcs[t].r, cur));
    Goto(SetNode(s2, cur, s.heap[cur].(stage := Retired)), t, Found(prev, 0, false))
  }

  /** Where each caller of find goes with its result. */
  function AfterFind(l: Local, prev: Addr, cur: Addr, match_: bool): Loc
    reads {}
  {
    match l.op
    case Lookup(_) => if match_ then ReadValue(cur) else ClearSlot(0, 2, false, 0)
    case Erase(_) =>
      if l.helping then ClearSlot(0, 2, l.won, 0)
      else if match_ then MarkLoad(cur)
      else Returned(false, 0)
    case Insert(_, _, _) =>
      if match_ then if l.node == 0 then Returned(false, 0) else ClearSlot(0, 3, false, 0)
      else if l.node == 0 then NewNode(prev, cur) else LinkStore(prev, cur)
    case First => Returned(false, 0)
  }

  function DoFound(s: State, t: Tid): State
    requires t in s.locals && s.locals[t].at.Found?
    reads {}
  {
    var Found(prev, cur, m) := s.locals[t].at;
    Goto(s, t, AfterFind(s.locals[t], prev, cur, m))
  }

  // ---------------------------------------------------------------- erase, find(key, value), firstKey

  function DoMarkLoad(s: State, t: Tid): State
    requires t in s.locals && s.locals[t].at.MarkLoad? && s.locals[t].at.cur in s.heap
    reads {}
  {
    var cur := s.locals[t].at.cur;
    Goto(s, t, MarkCas(cur, s.heap[cur].next))
  }

  function DoMarkCas(s: State, t: Tid): State
    requires t in s.locals && s.locals[t].at.MarkCas? && s.locals[t].at.cur in s.heap
    reads {}
  {
    var MarkCas(cur, w) := s.locals[t].at;
    if s.heap[cur].next != w then Goto(s, t, MarkLoad(cur))
    else
      var won := w == Clear(w);
      var s1 := SetNode(s, cur, s.heap[cur].(next := Mark(w)));
      s1.(wins := s.wins + (if won then 1 else 0),
          locals := s.locals[t := s.locals[t].(helping := true, won := won, at := FindStart)])
  }

  function DoReadValue(s: State, t: Tid): State
    requires t in s.locals && s.locals[t].at.ReadValue? && s.locals[t].at.cur in s.heap
    reads {}
  {
    Goto(s, t, ClearSlot(0, 2, true, s.heap[s.locals[t].at.cur].value))
  }

  function DoReadKey(s: State, t: Tid): State
    requires t in s.locals && s.locals[t].at.ReadKey?
    requires s.locals[t].at.cur == 0 || s.locals[t].at.cur in s.heap
    reads {}
  {
    var cur := s.locals[t].at.cur;
    Goto(s, t, ClearSlot(1, 1, cur != 0, if cur == 0 then 0 else s.heap[cur].key))
  }

  // ---------------------------------------------------------------- insert

  function DoNewNode(s: State, t: Tid, a: Addr): State
    requires t in s.locals && s.locals[t].at.NewNode? && s.locals[t].op.Insert?
    reads {}
  {
    var NewNode(prev, cur) := s.locals[t].at;
    var Insert(k, v, height) := s.locals[t].op;
    var s1 := SetNode(s, a, Node(k, v, height, height, NULL, Private, Some(t)));
    s1.(locals := s.locals[t := s.locals[t].(node := a, at := Protect(prev, cur))])
  }

  function DoProtect(s: State, t: Tid): State
    requires HasRecord(s, t) && s.locals[t].at.Protect?
    reads {}
  {
    var Protect(prev, cur) := s.locals[t].at;
    var n := s.locals[t].node;
    Goto(Validate(SetHazard(s, t, 3, Word(n, false)), t, 3, n), t, LinkStore(prev, cur))
  }

  function DoLinkStore(s: State, t: Tid): State
    requires t in s.locals && s.locals[t].at.LinkStore? && s.locals[t].node in s.heap
    reads {}
  {
    var LinkStore(prev, cur) := s.locals[t].at;
    var n := s.locals[t].node;
    Goto(SetNode(s, n, s.heap[n].(next := Word(cur, false))), t, LinkCas(prev, cur))
  }

  function DoLinkCas(s: State, t: Tid): State
    requires t in s.locals && s.locals[t].at.LinkCas?
    requires s.locals[t].at.prev in s.heap && s.locals[t].node in s.heap
    reads {}
  {
    var LinkCas(prev, cur) := s.locals[t].at;
    var n := s.locals[t].node;
    if s.heap[prev].next != Word(cur, false) then Goto(s, t, FindStart)
    else
      var mine := s.heap[n].(stage := Linked, inserter := if s.heap[n].height > 1 then Some(t) else None);
      var heap := s.heap[n := mine];
      Goto(s.(heap := heap[prev := heap[prev].(next := Word(n, false))], pubs := s.pubs + 1), t, ReadHeight)
  }

  function DoReadHeight(s: State, t: Tid): State
    requires t in s.locals && s.locals[t].node in s.heap && s.heap[s.locals[t].node].height >= 1
    reads {}
  {
    Goto(s, t, Tower(s.heap[s.locals[t].node].height - 1))
  }

  /** Insert is over: n needs nothing more from this thread. */
  function Finish(s: State, t: Tid, at: Loc): State
    requires t in s.locals
    reads {}
  {
    s.(locals := s.locals[t := s.locals[t].(node := 0, at := at)])
  }

  /**
   * The index loop from level `top`, the greater of n's own and height_, when the head's
   * link there is marked: it loads that link into hp1 and leaves. At level 0 it does not begin.
   */
  function DoTower(s: State, t: Tid, top: nat): State
    requires HasRecord(s, t) && s.locals[t].at.Tower? && top <= |s.tower|
    reads {}
  {
    var over := s.locals[t].at.over;
    var s1 := if top > 0 then SetHazard(s, t, 1, s.tower[top - 1]) else s;
    if over > 0 then Goto(s1, t, SubRefs(over)) else Finish(s1, t, ClearSlot(0, 3, true, 0))
  }

  function DoSubRefs(s: State, t: Tid): State
    requires t in s.locals && s.locals[t].at.SubRefs? && s.locals[t].node in s.heap
    reads {}
  {
    var n := s.locals[t].node;
    var links := Sub8(s.heap[n].links, s.locals[t].at.over);
    var mine := s.heap[n].(links := links, inserter := None, 
        stage := if links == 0 then Doomed(t) else s.heap[n].stage);
    Finish(SetNode(s, n, mine), t, if links == 0 then RetireOwn(n) else ClearSlot(0, 3, true, 0))
  }

  function DoRetireOwn(s: State, t: Tid): State
    requires HasRecord(s, t) && s.locals[t].at.RetireOwn? && s.locals[t].at.cur in s.heap
    reads {}
  {
    var cur := s.locals[t].at.cur;
    var s1 := s.(smr := H.RetireNode(s.smr, t, s.smr.pcs[t].r, cur));
    Goto(SetNode(s1, cur, s.heap[cur].(stage := Retired)), t, ClearSlot(0, 3, true, 0))
  }

  function DoClearSlot(s: State, t: Tid): State
    requires HasRecord(s, t) && s.locals[t].at.ClearSlot? && s.locals[t].at.slot < 4
    reads {}
  {
    var ClearSlot(k, last, result, out) := s.locals[t].at;
    var s1 := SetHazard(s, t, k, NULL);
    if k < last then Goto(s1, t, ClearSlot(k + 1, last, result, out))
    else if s.locals[t].node != 0 then Goto(s1, t, FreeOwn(result, out))
    else Goto(s1, t, Returned(result, out))
  }

  function DoFreeOwn(s: State, t: Tid): State
    requires t in s.locals && s.locals[t].at.FreeOwn?
    reads {}
  {
    var FreeOwn(result, out) := s.locals[t].at;
    Finish(s.(heap := s.heap - {s.locals[t].node}), t, Returned(result, out))
  }

  // ---------------------------------------------------------------- the reclaimer underneath

  /** A step of allocate, retire, scan or helpScan; a sweep may free a node. */
  function SmrStep(s: State, t: Tid): H.Smr
    requires t in s.smr.pcs && H.Slots(s.smr) && H.PcOk(s.smr, s.smr.pcs[t])
    reads {}
  {
    var pc := s.smr.pcs[t];
    if H.RecOf(pc).None? then H.AllocateStep(s.smr, t)
    else if H.Reclaiming(pc) then H.ScanStep(s.smr, t)
    else if pc.Ready? || pc.Leave? then H.LeaveStep(s.smr, t)
    else H.HelpStep(s.smr, t)
  }

  function DoReclaim(s: State, t: Tid): State
    requires t in s.smr.pcs && H.Slots(s.smr) && H.PcOk(s.smr, s.smr.pcs[t])
    reads {}
  {
    var heap := match H.Victim(s.smr, t) case Some(a) => s.heap - {a} case None => s.heap;
    s.(smr := SmrStep(s, t), heap := heap)
  }

  function Invoke(s: State, t: Tid, op: Op): State
    requires t in s.locals
    reads {}
  {
    var at := if op.First? then FirstLoad else FindStart;
    s.(locals := s.locals[t := Local(op, 0, false, false, s.locals[t].calls + 1, at)])
  }
}
