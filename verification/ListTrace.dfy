/** What a call in progress has witnessed: the maps that existed since it began, and its own effects. */
module ListTrace {
  import opened Words
  import H = HazardPointers
  import opened ListMap
  import opened ListInv
  import opened ListFrame
  import opened ListQuiet
  import opened ListFind
  import opened ListChange
  import opened ListAbs
  import opened ListReclaim
  import opened ListSafety
  import opened ListEffects

  /**
   * `maps` are the contents of the map and `fronts` the first node's key at each instant
   * since the call began, `unlinked` whether it left find through the exit that unlinks a
   * dead node, `effects` how many times it changed the map.
   */
  datatype Seen = Seen(maps: set<map<int, int>>, fronts: set<Option<int>>, unlinked: bool, effects: nat)

  /** The key of the node that the head's link names, live or dead; None if the link is null. */
  function Front(h: Heap, head: Addr): Option<int>
    reads {}
  {
    if head in h && h[head].next.ptr in h then Some(h[h[head].next.ptr].key) else None
  }

  ghost predicate SawValue(w: Seen, k: int, v: int)
    reads {}
  {
    exists m :: m in w.maps && k in m && m[k] == v
  }

  ghost predicate SawKey(w: Seen, k: int)
    reads {}
  {
    exists m :: m in w.maps && k in m
  }

  ghost predicate SawNone(w: Seen, k: int)
    reads {}
  {
    exists m :: m in w.maps && k !in m
  }

  /** At some instant the first node had key k, or (if !some) there was none and k is the default key. */
  ghost predicate SawFirst(w: Seen, some: bool, k: int)
    reads {}
  {
    (if some then Some(k) else None) in w.fronts && (some || k == 0)
  }

  /** What the answer of a call says about the instants of the call. */
  ghost predicate AnswerOk(op: Op, result: bool, out: int, w: Seen)
    reads {}
  {
    match op
    case Insert(k, _, _) => !result ==> SawKey(w, k)
    case Erase(k) => !result ==> SawNone(w, k) || w.unlinked
    case Lookup(k) => if result then SawValue(w, k, out) else SawNone(w, k) || w.unlinked
    case First => SawFirst(w, result, out)
  }

  ghost predicate TraceOk(h: Heap, head: Addr, l: Local, w: Seen)
    reads {}
  {
    var key := KeyOf(l.op);
    && (l.op.Erase? && l.helping && !l.won && !Between(l.at) ==> SawNone(w, key))
    && match l.at
       case PrevCheck(_, cur, link) => link == NULL && cur in h && h[cur].key < key ==> SawNone(w, key)
       case DeadCheck(_, cur, next) => cur in h && (h[cur].key > key || (next == 0 && h[cur].key < key)) ==>
           SawNone(w, key)
       case StepPrev(_, _, next) => next == 0 ==> SawNone(w, key)
       case StepCur(_, next) => next == 0 ==> SawNone(w, key)
       case DropRef(_, _) => w.unlinked
       case RetireDead(_, _) => w.unlinked
       case Found(_, cur, m) =>
         if m then (cur in h ==> SawValue(w, key, h[cur].value)) && (Live(h, head, cur) || SawNone(w, key))
         else SawNone(w, key) || w.unlinked
       case MarkLoad(cur) => Live(h, head, cur) || SawNone(w, key)
       case MarkCas(cur, _) => Live(h, head, cur) || SawNone(w, key)
       case ReadValue(cur) => cur in h ==> SawValue(w, key, h[cur].value)
       case ReadKey(cur) => if cur == 0 then SawFirst(w, false, 0) else cur in h ==> SawFirst(w, true, h[cur].key)
       case ClearSlot(_, _, result, out) => AnswerOk(l.op, result, out, w)
       case FreeOwn(result, out) => AnswerOk(l.op, result, out, w)
       case Returned(result, out) => AnswerOk(l.op, result, out, w)
       case _ => true
  }

  ghost predicate Grows(w: Seen, w': Seen)
    reads {}
  {
    w.maps <= w'.maps && w.fronts <= w'.fronts && (w.unlinked ==> w'.unlinked)
  }

  lemma SawGrows(w: Seen, w': Seen)
    requires Grows(w, w')
    ensures forall k, v {:trigger SawValue(w, k, v)} :: SawValue(w, k, v) ==> SawValue(w', k, v)
    ensures forall k {:trigger SawKey(w, k)} :: SawKey(w, k) ==> SawKey(w', k)
    ensures forall k {:trigger SawNone(w, k)} :: SawNone(w, k) ==> SawNone(w', k)
    ensures forall some, k {:trigger SawFirst(w, some, k)} :: SawFirst(w, some, k) ==> SawFirst(w', some, k)
  {
  }

  lemma TraceGrows(h: Heap, head: Addr, l: Local, w: Seen, w': Seen)
    requires TraceOk(h, head, l, w) && Grows(w, w')
    ensures TraceOk(h, head, l, w')
  {
    hide SawValue, SawKey, SawNone, SawFirst;
    SawGrows(w, w');
  }

  // ---------------------------------------------------------------- what the list shows at one instant

  lemma UnmarkedLive(h: Heap, head: Addr, a: Addr)
    requires NodesOk(h, head) && a in h && !h[a].stage.Private? && a != head && !h[a].next.tag
    ensures Live(h, head, a)
  {
  }

  /** Nothing lies between a linked node and its successor, so a key that falls there is absent. */
  lemma NothingBetween(h: Heap, head: Addr, prev: Addr, key: int)
    requires ListOk(h, head) && IsLinked(h, prev) && (prev == head || h[prev].key < key)
    requires var c := h[prev].next.ptr; c != 0 ==> c in h && h[c].key > key
    ensures key !in Abs(h, head)
  {
    forall a | Live(h, head, a) ensures h[a].key != key {
      assert IsLinked(h, prev) && IsLinked(h, a);
    }
    if key in Abs(h, head) {
      var a := AbsFrom(h, head, key);
      assert false;
    }
  }

  /** The head's link is null and the map empty, or it leads to a node with the least key of all linked nodes. */
  lemma FirstIsLeast(h: Heap, head: Addr)
    requires ListOk(h, head)
    ensures var c := h[head].next.ptr;
            if c == 0 then Abs(h, head) == map[]
            else
              && IsLinked(h, c) && c != head && (forall k :: k in Abs(h, head) ==> h[c].key <= k)
              && (h[c].key in Abs(h, head) <==> !h[c].next.tag)
  {
    var c := h[head].next.ptr;
    assert IsLinked(h, head);
    forall k | k in Abs(h, head) ensures c != 0 && c in h && h[c].key <= k {
      var a := AbsFrom(h, head, k);
      assert IsLinked(h, a) && Before(h, head, head, a);
    }
    if c == 0 {
      assert Abs(h, head).Keys == {};
    } else if h[c].key in Abs(h, head) {
      var a := AbsFrom(h, head, h[c].key);
      assert IsLinked(h, a) && IsLinked(h, c);
    } else if !h[c].next.tag {
      AbsAt(h, head, c);
    }
  }

  lemma HeadLeads(h: Heap, head: Addr)
    requires ListOk(h, head)
    ensures var c := h[head].next.ptr;
            if c == 0 then Front(h, head) == None else c in h && Front(h, head) == Some(h[c].key)
  {
    assert IsLinked(h, head);
  }

  lemma SawHere(w: Seen, m: map<int, int>)
    requires m in w.maps
    ensures forall k {:trigger SawNone(w, k)} :: k !in m ==> SawNone(w, k)
    ensures forall k {:trigger k in m} :: k in m ==> SawValue(w, k, m[k])
  {
  }

  lemma ValueIsKey(w: Seen, k: int, v: int)
    requires SawValue(w, k, v)
    ensures SawKey(w, k)
  {
  }

  // ---------------------------------------------------------------- steps of the thread itself

  /** The situation of a thread about to take a step inside its call. */
  ghost predicate Traced(s: State, t: Tid, w: Seen)
    reads {}
  {
    t in s.locals && TraceOk(s.heap, s.head, s.locals[t], w)
  }

  ghost predicate Watching(s: State, t: Tid, w: Seen)
    reads {}
  {
    && Turn(s, t) && CanWork(s, t) && Entries(s) in w.maps && Front(s.heap, s.head) in w.fronts
    && TraceOk(s.heap, s.head, s.locals[t], w)
  }

  lemma NextCheckTrace(s: State, s': State, t: Tid, w: Seen)
    requires CanWork(s, t) && s' == Work(s, t) && s.locals[t].at.NextCheck?
    requires Watching(s, t, w)
    ensures Traced(s', t, w)
  {
    hide Inv, ListOk, Abs;
    var NextCheck(prev, cur, link) := s.locals[t].at;
    if s.heap[cur].next == NULL && s.heap[cur].key < KeyOf(s.locals[t].op) {
      SuccessorLinked(s.heap, s.head, cur);
      NothingBetween(s.heap, s.head, cur, KeyOf(s.locals[t].op));
      SawHere(w, Entries(s));
    }
  }

  lemma PrevCheckTrace(s: State, s': State, t: Tid, w: Seen)
    requires CanWork(s, t) && s' == Work(s, t) && s.locals[t].at.PrevCheck?
    requires Watching(s, t, w)
    ensures Traced(s', t, w)
  {
    hide Inv, ListOk, Abs;
    var PrevCheck(prev, cur, link) := s.locals[t].at;
    if s.heap[prev].next == Word(cur, false) {
      SuccessorLinked(s.heap, s.head, prev);
      if s.heap[cur].key > KeyOf(s.locals[t].op) {
        NothingBetween(s.heap, s.head, prev, KeyOf(s.locals[t].op));
        SawHere(w, Entries(s));
      }
    }
  }

  lemma DeadCheckTrace(s: State, s': State, t: Tid, w: Seen)
    requires CanWork(s, t) && s' == Work(s, t) && s.locals[t].at.DeadCheck?
    requires Watching(s, t, w)
    ensures Traced(s', t, w)
  {
    hide Inv, ListOk, Abs, HeldAllocated, Owed;
    var DeadCheck(prev, cur, next) := s.locals[t].at;
    if !s.heap[cur].next.tag {
      TurnDeep2(s, t);
      UnmarkedLive(s.heap, s.head, cur);
      hide NodesOk;
      AbsAt(s.heap, s.head, cur);
      SawHere(w, Entries(s));
    }
  }

  lemma TurnDeep2(s: State, t: Tid)
    requires Turn(s, t)
    ensures NodesOk(s.heap, s.head) && KeysDiffer(s.heap, s.head) && IsLinked(s.heap, s.head)
  {
  }

  lemma FirstCheckTrace(s: State, s': State, t: Tid, w: Seen)
    requires CanWork(s, t) && s' == Work(s, t) && s.locals[t].at.FirstCheck?
    requires Watching(s, t, w)
    ensures Traced(s', t, w)
  {
    hide Inv, ListOk, LocOk, Abs;
    FirstIsLeast(s.heap, s.head);
    HeadLeads(s.heap, s.head);
    SawHere(w, Entries(s));
  }

  /** Losing the race to mark: the node was live when found and is not now. */
  lemma MarkTrace(s: State, s': State, t: Tid, w: Seen)
    requires CanWork(s, t) && s' == Work(s, t) && s.locals[t].at.MarkCas?
    requires Watching(s, t, w)
    ensures Traced(s', t, w)
  {
    hide Inv, ListOk, LocOk, Abs;
  }

  lemma FoundTrace(s: State, s': State, t: Tid, w: Seen)
    requires CanWork(s, t) && s' == Work(s, t) && s.locals[t].at.Found?
    requires Watching(s, t, w)
    ensures Traced(s', t, w)
  {
    hide Inv, ListOk, Abs, SawNone, SawFirst;
    var Found(prev, cur, m) := s.locals[t].at;
    if m {
      ValueIsKey(w, KeyOf(s.locals[t].op), s.heap[cur].value);
    }
  }

  /** The exit of find that unlinks a dead node. */
  predicate Unlinks(s: State, t: Tid)
    reads {}
  {
    && t in s.locals && t in s.smr.pcs && s.smr.pcs[t].Ready? && s.locals[t].at.UnlinkCas?
    && s.locals[t].at.prev in s.heap && s.heap[s.locals[t].at.prev].next == Word(s.locals[t].at.cur, false)
  }

  lemma HopTrace(s: State, s': State, t: Tid, w: Seen)
    requires CanWork(s, t) && s' == Work(s, t) && FindAt(s.locals[t].at)
    requires !s.locals[t].at.NextCheck? && !s.locals[t].at.PrevCheck? && !s.locals[t].at.DeadCheck?
    requires !s.locals[t].at.Found?
    requires Watching(s, t, w) && (Unlinks(s, t) ==> w.unlinked)
    ensures Traced(s', t, w)
  {
    hide Turn, Abs, Entries, SawValue, SawKey, SawNone, SawFirst, H.SetSlot, H.Hold, H.RetireNode;
  }

  lemma OtherFits(h: Heap, head: Addr, recs: seq<H.Record>, rec: H.Record, t: Tid, l: Local)
    requires LocOk(h, head, recs, rec, t, l)
    ensures l.at.ReadValue? ==> l.op.Lookup?
    ensures l.at.ReadKey? ==> l.op.First?
    ensures l.at.SubRefs? || l.at.RetireOwn? || l.at.Tower? ==> l.op.Insert?
  {
  }

  lemma TurnFits(s: State, t: Tid)
    requires Turn(s, t) && !Between(s.locals[t].at)
    ensures var l := s.locals[t];
            && (l.at.ReadValue? ==> l.op.Lookup?) && (l.at.ReadKey? ==> l.op.First?)
            && (l.at.SubRefs? || l.at.RetireOwn? || l.at.Tower? ==> l.op.Insert?)
  {
    hide Inv, ListOk, LocOk;
    OtherFits(s.heap, s.head, s.smr.recs, Mine(s, t), t, s.locals[t]);
  }

  predicate ReadAt(at: Loc)
    reads {}
  {
    at.FirstLoad? || at.FirstSet? || at.MarkLoad? || at.ReadValue? || at.ReadKey? || at.Protect? || at.ReadHeight?
  }

  lemma ReadTrace(s: State, s': State, t: Tid, w: Seen)
    requires CanWork(s, t) && s' == Work(s, t) && ReadAt(s.locals[t].at)
    requires Watching(s, t, w)
    ensures Traced(s', t, w)
  {
    hide Turn, Abs, Entries, SawValue, SawKey, SawNone, SawFirst, H.SetSlot, H.Hold, H.RetireNode;
    TurnFits(s, t);
  }

  lemma WriteTrace(s: State, s': State, t: Tid, w: Seen)
    requires CanWork(s, t) && s' == Work(s, t) && !FindAt(s.locals[t].at) && !Between(s.locals[t].at)
    requires !ReadAt(s.locals[t].at)
    requires !s.locals[t].at.FirstCheck? && !s.locals[t].at.MarkCas? && !s.locals[t].at.NewNode?
    requires !s.locals[t].at.Tower?
    requires Watching(s, t, w)
    ensures Traced(s', t, w)
  {
    hide Turn, Abs, Entries, SawValue, SawKey, SawNone, SawFirst, H.SetSlot, H.Hold, H.RetireNode;
    TurnFits(s, t);
  }

  lemma WorkTrace(s: State, s': State, t: Tid, w: Seen)
    requires CanWork(s, t) && s' == Work(s, t) && !Between(s.locals[t].at) && !s.locals[t].at.NewNode?
    requires !s.locals[t].at.Tower?
    requires Watching(s, t, w) && (Unlinks(s, t) ==> w.unlinked)
    ensures Traced(s', t, w)
  {
    var at := s.locals[t].at;
    hide Watching, Traced, Work, CanWork, Unlinks;
    if at.NextCheck? {
      NextCheckTrace(s, s', t, w);
    } else if at.PrevCheck? {
      PrevCheckTrace(s, s', t, w);
    } else if at.DeadCheck? {
      DeadCheckTrace(s, s', t, w);
    } else if at.Found? {
      FoundTrace(s, s', t, w);
    } else if FindAt(at) {
      HopTrace(s, s', t, w);
    } else if at.FirstCheck? {
      FirstCheckTrace(s, s', t, w);
    } else if at.MarkCas? {
      MarkTrace(s, s', t, w);
    } else if ReadAt(at) {
      ReadTrace(s, s', t, w);
    } else {
      WriteTrace(s, s', t, w);
    }
  }

  lemma NewNodeTrace(s: State, s': State, t: Tid, w: Seen)
    requires Turn(s, t) && Traced(s, t, w) && (s.locals[t].at.NewNode? || s.locals[t].at.Tower?)
    requires s'.locals.Keys == s.locals.Keys && s'.locals[t].op == s.locals[t].op
    requires s'.locals[t].helping == s.locals[t].helping && s'.locals[t].won == s.locals[t].won
    requires s'.locals[t].at.Protect? || s'.locals[t].at.SubRefs? || s'.locals[t].at == ClearSlot(0, 3, true, 0)
    ensures Traced(s', t, w)
  {
    hide Inv, ListOk, Abs, Entries, SawValue, SawKey, SawNone, SawFirst, Guards, PrevOk, AfterOk, MineOk, KeptOk,
        Unheld;
  }

  // ---------------------------------------------------------------- steps of the others

  /** A node another thread has found stays the same node, and stops being live only by being killed. */
  lemma FoundStays(s: State, s': State, t: Tid, x: Tid, q: nat, cur: Addr)
    requires t in s.locals && Effect(s, s', t)
    requires HeapStep(s, s', x) && HeldAllocated(s) && H.Owners(s.smr) && q < |s.smr.recs|
    requires s.smr.recs[q].owner != Some(x)
    requires Guards(s.heap, s.smr.recs[q], 1, cur)
    ensures cur in s.heap && cur in s'.heap && s'.heap[cur].key == s.heap[cur].key
    ensures s'.heap[cur].value == s.heap[cur].value
    ensures Live(s.heap, s.head, cur) ==>
              Live(s'.heap, s.head, cur) || (Kills(s, t) && s.locals[t].op.key == s.heap[cur].key)
  {
    HeldStays(s, s', x, q, 1, cur);
  }

  lemma TraceStays(h: Heap, head: Addr, h': Heap, l: Local, w: Seen)
    requires TraceOk(h, head, l, w)
    requires var cur := CurOf(l.at);
             cur != 0 ==> cur in h && cur in h' && h'[cur].key == h[cur].key && h'[cur].value == h[cur].value
                          && (Live(h, head, cur) ==>
                               Live(h', head, cur) || (h[cur].key == KeyOf(l.op) ==> SawNone(w, KeyOf(l.op))))
    requires l.at.MarkLoad? || l.at.MarkCas? || (l.at.Found? && l.at.match_) ==>
               CurOf(l.at) != 0 && h[CurOf(l.at)].key == KeyOf(l.op)
    requires l.at.PrevCheck? || l.at.DeadCheck? || l.at.ReadValue? ==> CurOf(l.at) != 0
    ensures TraceOk(h', head, l, w)
  {
    hide SawValue, SawKey, SawNone, SawFirst;
  }

  /** What t's record and locals say about the node it has found. */
  lemma FoundFacts(h: Heap, head: Addr, recs: seq<H.Record>, rec: H.Record, t: Tid, l: Local)
    requires LocOk(h, head, recs, rec, t, l)
    ensures CurOf(l.at) != 0 ==> Guards(h, rec, 1, CurOf(l.at))
    ensures l.at.MarkLoad? || l.at.MarkCas? || (l.at.Found? && l.at.match_) ==>
              CurOf(l.at) != 0 && CurOf(l.at) in h && h[CurOf(l.at)].key == KeyOf(l.op)
    ensures l.at.PrevCheck? || l.at.DeadCheck? || l.at.ReadValue? ==> CurOf(l.at) != 0
  {
  }

  /** A step of t leaves what u has witnessed true of u. */
  lemma OthersTrace(s: State, s': State, t: Tid, x: Tid, u: Tid, w: Seen)
    requires Inv(s) && Next(s, s', t) && Effect(s, s', t) && HeapStep(s, s', x) && u != x && u in s.locals
    requires u in s.smr.pcs
    requires Traced(s, u, w) && Inv(s') && Entries(s') in w.maps
    requires s'.head == s.head && u in s'.locals && s'.locals[u] == s.locals[u]
    requires Kills(s, t) ==> s.locals[t].op.Erase? && s.locals[t].op.key !in Entries(s')
    ensures Traced(s', u, w)
  {
    InvParts(s, u);
    hide Inv, H.Inv, Next, ListOk, LocOk, Abs, Entries, Effect, H.SafeNames, RetiredArePending, Owed, TraceOk;
    var l := s.locals[u];
    if Between(l.at) {
      BetweenTrace(s.heap, s.head, s'.heap, l, w);
    } else {
      var q := H.RecOf(s.smr.pcs[u]).value;
      assert H.Owns(s.smr.pcs[u], q);
      FoundFacts(s.heap, s.head, s.smr.recs, s.smr.recs[q], u, l);
      hide H.Owners, HeapStep, HeldAllocated, Live;
      if CurOf(l.at) != 0 {
        FoundStays(s, s', t, x, q, CurOf(l.at));
      }
      SawHere(w, Entries(s'));
      TraceStays(s.heap, s.head, s'.heap, l, w);
    }
  }

  lemma BetweenTrace(h: Heap, head: Addr, h': Heap, l: Local, w: Seen)
    requires Between(l.at) && TraceOk(h, head, l, w)
    ensures TraceOk(h', head, l, w)
  {
  }
}
