/**
 * What becomes of the node an erase has marked. Its second find is there to take the node
 * out of the list; it does, or another thread does, unless that find leaves by unlinking
 * some other node.
 */
module ListErase {
  import opened Words
  import H = HazardPointers
  import opened ListMap
  import opened ListInv
  import opened ListFrame
  import opened ListQuiet
  import opened ListFind
  import opened ListChange
  import opened ListAbs
  import opened ListReclaim
  import opened ListSafety
  import opened ListEffects
  import opened ListTrace
  import opened ListWitness
  import opened ListRuns
  import opened ListCalls

  /** The node marked at a, with key k, is still in the list. */
  ghost predicate Standing(h: Heap, a: Addr, k: int)
    reads {}
  {
    IsLinked(h, a) && h[a].next.tag && h[a].key == k
  }

  /** erase's marking CAS is about to succeed, whoever marked first. */
  predicate Marks(s: State, t: Tid)
    reads {}
  {
    && t in s.locals && t in s.smr.pcs && s.smr.pcs[t].Ready? && s.locals[t].at.MarkCas?
    && s.locals[t].at.cur in s.heap && s.heap[s.locals[t].at.cur].next == s.locals[t].at.link
  }

  /**
   * `marked` says whether the call has marked a node, `victim` which one, `gone` whether it has been out of the
   * list at some instant since, `freed` whether it has been freed, and `unlinked` whether
   * the second find left by unlinking a node.
   */
  datatype Watch = Watch(marked: bool, victim: Addr, gone: bool, freed: bool, unlinked: bool)

  const NOTHING := Watch(false, 0, false, false, false)

  /** The watch on u's call after a step of t. */
  ghost function Note(w: Watch, s: State, s': State, t: Tid, u: Tid): Watch
    requires u in s.locals && u in s'.locals
    reads {}
  {
    var key := KeyOf(s'.locals[u].op);
    if s'.locals[u].calls != s.locals[u].calls then NOTHING
    else if t == u && Marks(s, u) then
      var a := s.locals[u].at.cur;
      Watch(true, a, !Standing(s'.heap, a, key), a !in s'.heap, false)
    else
      Watch(w.marked, w.victim, w.gone || !Standing(s'.heap, w.victim, key), w.freed || w.victim !in s'.heap,
            w.unlinked || (t == u && Unlinks(s, u)))
  }

  /** What the second find has learnt, location by location. */
  ghost predicate OutAt(h: Heap, l: Local, w: Watch)
    reads {}
  {
    var at, key := l.at, KeyOf(l.op);
    && (at.PrevCheck? && at.link == NULL && at.cur in h && h[at.cur].key < key ==> w.gone)
    && (at.DeadCheck? && at.cur in h ==>
          (h[at.cur].key >= key && !h[at.cur].next.tag) || (at.next == 0 && h[at.cur].key < key) ==> w.gone)
    && ((at.StepPrev? || at.StepCur?) && at.next == 0 ==> w.gone)
    && (at.DropRef? || at.RetireDead? ==> w.unlinked)
    && (at.Found? ==> if at.cur != 0 then w.gone && (at.cur == w.victim ==> w.freed) else w.gone || w.unlinked)
    && (at.ClearSlot? || at.FreeOwn? || Between(at) ==> w.gone || w.unlinked)
  }

  ghost predicate OutOk(h: Heap, l: Local, w: Watch)
    reads {}
  {
    && (l.op.Erase? && l.helping ==>
          && w.marked && (w.gone || Standing(h, w.victim, KeyOf(l.op)))
          && (w.freed || (w.victim in h && h[w.victim].next.tag))
          && OutAt(h, l, w))
    && (l.op.Erase? && (l.at.ClearSlot? || l.at.FreeOwn? || l.at.Returned?) && l.at.result ==> l.helping)
  }

  /** w' continues the watch w into heap h. */
  ghost predicate Later(w: Watch, w': Watch, h: Heap, k: int)
    reads {}
  {
    && w'.marked == w.marked && w'.victim == w.victim
    && (w'.gone <==> w.gone || !Standing(h, w.victim, k)) && (w'.freed <==> w.freed || w.victim !in h)
    && (w.unlinked ==> w'.unlinked)
  }

  // ---------------------------------------------------------------- what the list shows at one instant

  /** After a linked node below the key with a null link, no node with the key is linked. */
  lemma NoneAfter(h: Heap, head: Addr, prev: Addr, a: Addr, k: int)
    requires ListOk(h, head) && IsLinked(h, prev) && (prev == head || h[prev].key < k) && h[prev].next.ptr == 0
    ensures !Standing(h, a, k)
  {
  }

  /** Between neighbours around the key, a marked node with the key is the second of them. */
  lemma OnlyCur(h: Heap, head: Addr, prev: Addr, cur: Addr, a: Addr, k: int)
    requires ListOk(h, head) && IsLinked(h, prev) && (prev == head || h[prev].key < k) && h[prev].next.ptr == cur
    requires cur != 0 && cur in h && h[cur].key >= k && Standing(h, a, k)
    ensures a == cur
  {
    assert a != head;
    assert Before(h, head, prev, a);
  }

  // ---------------------------------------------------------------- steps of the thread itself

  /** t is about to take a step of its own, inside a call. */
  ghost predicate Acting(s: State, s': State, t: Tid, w: Watch, w': Watch)
    reads {}
  {
    && Turn(s, t) && CanWork(s, t) && s' == Work(s, t) && !Between(s.locals[t].at)
    && OutOk(s.heap, s.locals[t], w) && t in s'.locals && Later(w, w', s'.heap, KeyOf(s.locals[t].op))
  }

  lemma NextCheckOut(s: State, s': State, t: Tid, w: Watch, w': Watch)
    requires Acting(s, s', t, w, w') && s.locals[t].at.NextCheck?
    ensures OutOk(s'.heap, s'.locals[t], w')
  {
    hide Inv, ListOk;
    var NextCheck(prev, cur, link) := s.locals[t].at;
    if s.heap[cur].next == NULL && s.heap[cur].key < KeyOf(s.locals[t].op) {
      SuccessorLinked(s.heap, s.head, cur);
      NoneAfter(s.heap, s.head, cur, w.victim, KeyOf(s.locals[t].op));
    }
  }

  lemma PrevCheckOut(s: State, s': State, t: Tid, w: Watch, w': Watch)
    requires Acting(s, s', t, w, w') && s.locals[t].at.PrevCheck?
    ensures OutOk(s'.heap, s'.locals[t], w')
  {
    hide Inv, ListOk;
    var PrevCheck(prev, cur, link) := s.locals[t].at;
    var k := KeyOf(s.locals[t].op);
    if s.heap[prev].next == Word(cur, false) {
      SuccessorLinked(s.heap, s.head, prev);
      if s.heap[cur].key >= k && Standing(s.heap, w.victim, k) {
        OnlyCur(s.heap, s.head, prev, cur, w.victim, k);
      }
    }
  }

  lemma FirstCheckOut(s: State, s': State, t: Tid, w: Watch, w': Watch)
    requires Acting(s, s', t, w, w') && s.locals[t].at.FirstCheck?
    ensures OutOk(s'.heap, s'.locals[t], w')
  {
    hide Inv, ListOk, LocOk;
    HeadLinked(s.heap, s.head);
    if s.heap[s.head].next.ptr == 0 {
      NoneAfter(s.heap, s.head, s.head, w.victim, KeyOf(s.locals[t].op));
    }
  }

  lemma DeadCheckOut(s: State, s': State, t: Tid, w: Watch, w': Watch)
    requires Acting(s, s', t, w, w') && s.locals[t].at.DeadCheck?
    ensures OutOk(s'.heap, s'.locals[t], w')
  {
    hide Turn;
  }

  lemma FindOut(s: State, s': State, t: Tid, w: Watch, w': Watch)
    requires Acting(s, s', t, w, w') && FindAt(s.locals[t].at)
    requires !s.locals[t].at.NextCheck? && !s.locals[t].at.PrevCheck? && !s.locals[t].at.DeadCheck?
    requires Unlinks(s, t) ==> w'.unlinked
    ensures OutOk(s'.heap, s'.locals[t], w')
  {
    hide Turn, H.SetSlot, H.Hold, H.RetireNode, Standing;
  }

  lemma ReadOut(s: State, s': State, t: Tid, w: Watch, w': Watch)
    requires Acting(s, s', t, w, w') && ReadAt(s.locals[t].at)
    ensures OutOk(s'.heap, s'.locals[t], w')
  {
    hide Turn, H.SetSlot, H.Hold, Standing;
    TurnFits(s, t);
  }

  lemma OtherOut(s: State, s': State, t: Tid, w: Watch, w': Watch)
    requires Acting(s, s', t, w, w') && !FindAt(s.locals[t].at) && !s.locals[t].at.FirstCheck?
    requires !ReadAt(s.locals[t].at) && !s.locals[t].at.NewNode? && !s.locals[t].at.Tower?
    requires s.locals[t].at.MarkCas? ==> s.heap[s.locals[t].at.cur].next != s.locals[t].at.link
    ensures OutOk(s'.heap, s'.locals[t], w')
  {
    hide Turn, H.SetSlot, H.Hold, H.RetireNode, Standing;
    TurnFits(s, t);
    TurnLinks(s, t);
  }

  lemma LinkFits(h: Heap, head: Addr, recs: seq<H.Record>, rec: H.Record, t: Tid, l: Local)
    requires LocOk(h, head, recs, rec, t, l)
    ensures LinkAt(l.at) ==> l.op.Insert?
  {
  }

  lemma TurnLinks(s: State, t: Tid)
    requires Turn(s, t) && !Between(s.locals[t].at)
    ensures LinkAt(s.locals[t].at) ==> s.locals[t].op.Insert?
  {
    hide Inv, ListOk, LocOk;
    LinkFits(s.heap, s.head, s.smr.recs, Mine(s, t), t, s.locals[t]);
  }

  lemma TurnReady(s: State, t: Tid)
    requires Turn(s, t)
    ensures t in s.smr.pcs && s.smr.pcs[t].Ready?
  {
  }

  /** The marking CAS itself opens the watch. */
  lemma MarkOut(s: State, s': State, t: Tid, w: Watch)
    requires Turn(s, t) && CanWork(s, t) && s' == Work(s, t) && Marks(s, t) && t in s'.locals
    ensures OutOk(s'.heap, s'.locals[t], Note(w, s, s', t, t))
  {
    hide Turn, Standing;
  }

  lemma WorkOut(s: State, s': State, t: Tid, w: Watch)
    requires Turn(s, t) && CanWork(s, t) && s' == Work(s, t) && !Between(s.locals[t].at) && t in s'.locals
    requires !s.locals[t].at.NewNode? && !s.locals[t].at.Tower? && OutOk(s.heap, s.locals[t], w)
    requires Moved(s, s', t)
    ensures OutOk(s'.heap, s'.locals[t], Note(w, s, s', t, t))
  {
    var at, w' := s.locals[t].at, Note(w, s, s', t, t);
    if Marks(s, t) {
      MarkOut(s, s', t, w);
    } else {
      assert Later(w, w', s'.heap, KeyOf(s.locals[t].op));
      TurnReady(s, t);
      assert at.MarkCas? ==> s.heap[at.cur].next != at.link;
      hide OutOk, Work, CanWork, Turn, Note, Later, Marks;
      if at.NextCheck? {
        NextCheckOut(s, s', t, w, w');
      } else if at.PrevCheck? {
        PrevCheckOut(s, s', t, w, w');
      } else if at.DeadCheck? {
        DeadCheckOut(s, s', t, w, w');
      } else if FindAt(at) {
        FindOut(s, s', t, w, w');
      } else if at.FirstCheck? {
        FirstCheckOut(s, s', t, w, w');
      } else if ReadAt(at) {
        ReadOut(s, s', t, w, w');
      } else {
        OtherOut(s, s', t, w, w');
      }
    }
  }

  // ---------------------------------------------------------------- steps of the others

  /** A step of someone else: the nodes u relies on keep their keys and their marks. */
  lemma OutStays(h: Heap, h': Heap, l: Local, w: Watch, w': Watch)
    requires OutOk(h, l, w) && Later(w, w', h', KeyOf(l.op))
    requires var cur := CurOf(l.at);
             cur != 0 ==> cur in h && cur in h' && h'[cur].key == h[cur].key && (h[cur].next.tag ==> h'[cur].next.tag)
    requires l.at.PrevCheck? || l.at.DeadCheck? ==> CurOf(l.at) != 0
    requires w.victim in h && w.victim in h' && h[w.victim].next.tag ==> h'[w.victim].next.tag
    ensures OutOk(h', l, w')
  {
    hide Standing;
  }

  lemma NoteIsLater(w: Watch, s: State, s': State, t: Tid, u: Tid)
    requires u in s.locals && u in s'.locals && s'.locals[u] == s.locals[u] && (u == t ==> !Marks(s, t))
    ensures Later(w, Note(w, s, s', t, u), s'.heap, KeyOf(s.locals[u].op))
  {
    hide Marks, Unlinks, Standing;
  }

  /** The node u has found keeps its key and its mark. */
  lemma CurStays(s: State, s': State, x: Tid, u: Tid)
    requires Inv(s) && HeapStep(s, s', x) && u != x && u in s.locals && u in s.smr.pcs
    ensures var l := s.locals[u];
            var cur := CurOf(l.at);
            && (cur != 0 ==>
                  cur in s.heap && cur in s'.heap && s'.heap[cur].key == s.heap[cur].key
                      && (s.heap[cur].next.tag ==> s'.heap[cur].next.tag))
            && (l.at.PrevCheck? || l.at.DeadCheck? ==> cur != 0)
  {
    hide Inv, LocOk, HeapStep, HeldAllocated, H.Owners, CurOf, Guards;
    var l := s.locals[u];
    if Between(l.at) {
      BetweenCur(l.at);
    } else {
      var q := PlaceOf(s, u);
      FoundFacts(s.heap, s.head, s.smr.recs, s.smr.recs[q], u, l);
      if CurOf(l.at) != 0 {
        GuardedStays(s, s', x, q, CurOf(l.at));
      }
    }
  }

  lemma BetweenCur(at: Loc)
    requires Between(at)
    ensures CurOf(at) == 0 && !at.PrevCheck? && !at.DeadCheck?
  {
  }

  /** The record u owns, and what its location says of it. */
  lemma PlaceOf(s: State, u: Tid) returns (q: nat)
    requires Inv(s) && u in s.locals && u in s.smr.pcs && !Between(s.locals[u].at)
    ensures HeldAllocated(s) && H.Owners(s.smr) && q < |s.smr.recs| && s.smr.recs[q].owner == Some(u)
    ensures LocOk(s.heap, s.head, s.smr.recs, s.smr.recs[q], u, s.locals[u])
  {
    InvParts(s, u);
    hide Inv, H.Inv, ListOk, LocOk, H.SafeNames, RetiredArePending, Owed, HeldAllocated, H.Slots, H.PcOk;
    q := H.RecOf(s.smr.pcs[u]).value;
    assert H.Owns(s.smr.pcs[u], q);
  }

  lemma GuardedStays(s: State, s': State, x: Tid, q: nat, cur: Addr)
    requires HeapStep(s, s', x) && HeldAllocated(s) && H.Owners(s.smr) && q < |s.smr.recs|
    requires s.smr.recs[q].owner != Some(x) && Guards(s.heap, s.smr.recs[q], 1, cur)
    ensures cur in s.heap && cur in s'.heap && s'.heap[cur].key == s.heap[cur].key
    ensures s.heap[cur].next.tag ==> s'.heap[cur].next.tag
  {
    HeldStays(s, s', x, q, 1, cur);
  }

  /** x is whom u takes the step to be by. */
  lemma BystanderOut(s: State, s': State, t: Tid, x: Tid, u: Tid, w: Watch)
    requires Inv(s) && HeapStep(s, s', x) && u != x && u in s.locals && u in s.smr.pcs && OutOk(s.heap, s.locals[u], w)
    requires u in s'.locals && s'.locals[u] == s.locals[u] && (u == t ==> !Unlinks(s, t) && !Marks(s, t))
    ensures OutOk(s'.heap, s'.locals[u], Note(w, s, s', t, u))
  {
    hide Inv, OutOk, Note, Unlinks, Marks, HeapStep, CurOf;
    NoteIsLater(w, s, s', t, u);
    VictimStays(s, s', x, w.victim);
    CurStays(s, s', x, u);
    OutStays(s.heap, s'.heap, s.locals[u], w, Note(w, s, s', t, u));
  }

  lemma VictimStays(s: State, s': State, x: Tid, a: Addr)
    requires HeapStep(s, s', x)
    ensures a in s.heap && a in s'.heap && s.heap[a].next.tag ==> s'.heap[a].next.tag
  {
    if a in s.heap && a in s'.heap {
      assert NodeStep(s.heap[a], s'.heap[a], x);
    }
  }

  // ---------------------------------------------------------------- every step

  lemma InvokeOut(s: State, s': State, t: Tid, op: Op, w: Watch)
    requires t in s.locals && s' == Invoke(s, t, op)
    ensures t in s'.locals && OutOk(s'.heap, s'.locals[t], Note(w, s, s', t, t))
  {
  }

  lemma NotErase(h: Heap, l: Local, w: Watch)
    requires !l.op.Erase?
    ensures OutOk(h, l, w)
  {
  }

  lemma OwnOut(s: State, s': State, t: Tid, w: Watch)
    requires Inv(s) && Next(s, s', t) && OutOk(s.heap, s.locals[t], w)
    ensures t in s'.locals && OutOk(s'.heap, s'.locals[t], Note(w, s, s', t, t))
  {
    hide Inv, Turn, CountOk, Work, H.PcOk, H.Slots, SmrStep, H.RecOf, H.SetSlot, OutOk, Note;
    if s.smr.pcs[t].Ready? && !Between(s.locals[t].at) {
      TurnOf(s, t);
      NewNodeIsInsert(s, t);
      TurnCount(s, t);
      if s.locals[t].at.NewNode? {
        var a :| a != 0 && a !in s.heap && s' == DoNewNode(s, t, a);
        NotErase(s'.heap, s'.locals[t], Note(w, s, s', t, t));
      } else if s.locals[t].at.Tower? {
        var top := TowerLeaves(s, s', t);
        NotErase(s'.heap, s'.locals[t], Note(w, s, s', t, t));
      } else {
        hide CanWork;
        WorkCount(s, s', t, 0);
        WorkOut(s, s', t, w);
      }
    } else if s' == DoReclaim(s, t) {
      ReclaimHeapStep(s, t, t + 1);
      InvParts(s, t);
      ReclaimQuiet(s, t);
      hide Next;
      BystanderOut(s, s', t, t + 1, t, w);
    } else {
      var op :| OpOk(op) && s' == Invoke(s, t, op);
      InvokeOut(s, s', t, op, w);
    }
  }

  /** A step of the reclaimer, or between calls, is no access of an operation. */
  lemma ReclaimQuiet(s: State, t: Tid)
    requires t in s.locals && t in s.smr.pcs && (s.smr.pcs[t].Ready? ==> Between(s.locals[t].at))
    ensures !Unlinks(s, t) && !Marks(s, t)
  {
  }

  lemma StepOut(s: State, s': State, t: Tid, u: Tid, w: Watch)
    requires Inv(s) && Next(s, s', t) && u in s.locals && OutOk(s.heap, s.locals[u], w)
    ensures u in s'.locals && OutOk(s'.heap, s'.locals[u], Note(w, s, s', t, u))
  {
    assert t in s.locals;
    hide Inv, Next, OutOk, Effect, HeapStep;
    OthersUnmoved(s, s', t);
    if u == t {
      OwnOut(s, s', t, w);
    } else {
      NextEffect(s, s', t);
      EffectSteps(s, s', t);
      assert u in s.smr.pcs by { InvParts(s, u); }
      BystanderOut(s, s', t, t, u, w);
    }
  }

  lemma EffectSteps(s: State, s': State, t: Tid)
    requires t in s.locals && Effect(s, s', t)
    ensures HeapStep(s, s', t)
  {
  }

  // ---------------------------------------------------------------- whole runs

  /** The watch on the call u is in (or was last in) at state j. */
  ghost function WatchOf(r: Run, u: Tid, j: nat): Watch
    requires Followed(r, u) && j < |r.states|
    reads {}
  {
    if j == 0 then NOTHING
    else Note(WatchOf(r, u, j - 1), r.states[j - 1], r.states[j], r.actors[j - 1], u)
  }

  lemma {:induction false} WatchOk(r: Run, u: Tid, j: nat)
    requires IsRun(r) && Followed(r, u) && j < |r.states|
    ensures OutOk(r.states[j].heap, r.states[j].locals[u], WatchOf(r, u, j))
  {
    hide Inv, Next, Note, OutAt;
    if j > 0 {
      WatchOk(r, u, j - 1);
      StepOf(r, j - 1);
      assert Inv(r.states[j - 1]);
      hide IsRun, OutOk, AllInv;
      StepOut(r.states[j - 1], r.states[j], r.actors[j - 1], u, WatchOf(r, u, j - 1));
    }
  }

  /** u marked the node at a in step i of its call, and the call is still its last at j. */
  ghost predicate MarkedAt(r: Run, u: Tid, i: nat, j: nat, a: Addr)
    reads {}
  {
    && i < j < |r.states| && |r.states| == |r.actors| + 1 && r.actors[i] == u && Marks(r.states[i], u)
    && r.states[i].locals[u].at.cur == a && SameCall(r, u, i, j)
  }

  /** At every instant after step i, up to state j, the node still stands. */
  ghost predicate StandsSince(r: Run, i: nat, j: nat, a: Addr, k: int)
    reads {}
  {
    j < |r.states| && forall m {:trigger r.states[m].heap} :: i < m <= j ==> Standing(r.states[m].heap, a, k)
  }

  /** When a call has marked a node, and what the watch on it says of the instants since. */
  lemma {:induction false} MarkOf(r: Run, u: Tid, j: nat) returns (i: nat)
    requires IsRun(r) && Followed(r, u) && j < |r.states| && WatchOf(r, u, j).marked
    ensures MarkedAt(r, u, i, j, WatchOf(r, u, j).victim)
    ensures var k, w := KeyOf(r.states[j].locals[u].op), WatchOf(r, u, j);
            && (w.gone <==> !StandsSince(r, i, j, w.victim, k))
            && (w.freed <==> exists m {:trigger r.states[m].heap} :: i < m <= j && w.victim !in r.states[m].heap)
            && (w.unlinked ==> exists m {:trigger r.actors[m]} ::
                  i < m < j && r.actors[m] == u && Unlinks(r.states[m], u))
  {
    hide Inv, IsRun, Marks, Unlinks, Standing;
    assert Inv(r.states[j]);
    CallStep(r, u, j);
    var w, w' := WatchOf(r, u, j - 1), WatchOf(r, u, j);
    assert w' == Note(w, r.states[j - 1], r.states[j], r.actors[j - 1], u);
    if r.actors[j - 1] == u && Marks(r.states[j - 1], u) {
      i := j - 1;
    } else {
      i := MarkOf(r, u, j - 1);
      SameCallGrows(r, u, i, j - 1);
    }
  }

  lemma ReturnedOut(h: Heap, l: Local, w: Watch)
    requires OutOk(h, l, w) && l.op.Erase? && l.at.Returned? && (l.at.result || l.helping)
    ensures l.helping && w.marked && (w.gone || w.unlinked)
  {
  }

  /**
   * Every erase that has returned true, and every other that got as far as its mark: the
   * node at a that it marked has been out of the list at an instant since (`other` is false,
   * and m is one), unless its second find left, at step m, by unlinking a different node, and
   * then the node stands at every instant up to the return. So the node still stands when the
   * call returns only by that exit.
   */
  lemma EraseTakesOut(r: Run, u: Tid, j: nat) returns (i: nat, a: Addr, m: nat, other: bool)
    requires IsRun(r) && j < |r.states| && u in r.states[j].locals && r.states[j].locals[u].at.Returned?
    requires var l := r.states[j].locals[u]; l.op.Erase? && (l.at.result || l.helping)
    ensures MarkedAt(r, u, i, j, a) && i < m <= j
    ensures var k := KeyOf(r.states[j].locals[u].op);
            if other then
              && m < j && r.actors[m] == u && Unlinks(r.states[m], u) && r.states[m].locals[u].at.cur != a
              && StandsSince(r, i, j, a, k)
            else !Standing(r.states[m].heap, a, k)
  {
    RunFollowed(r, u, j);
    hide Inv, IsRun, Marks, Standing, OutOk, Unlinks;
    WatchOk(r, u, j);
    var w := WatchOf(r, u, j);
    ReturnedOut(r.states[j].heap, r.states[j].locals[u], w);
    i := MarkOf(r, u, j);
    a := w.victim;
    var k := KeyOf(r.states[j].locals[u].op);
    other := !w.gone;
    if w.gone {
      m :| i < m <= j && !Standing(r.states[m].heap, a, k);
    } else {
      m :| i < m < j && r.actors[m] == u && Unlinks(r.states[m], u);
      assert Standing(r.states[m + 1].heap, a, k);
      UnlinkedGoes(r, u, m, a, k);
    }
  }

  /** The node an unlinking compare-exchange takes out no longer stands. */
  lemma UnlinkedGoes(r: Run, u: Tid, m: nat, a: Addr, k: int)
    requires IsRun(r) && m < |r.actors| && r.actors[m] == u && m + 1 < |r.states| && u in r.states[m].locals
    requires Unlinks(r.states[m], u) && Standing(r.states[m + 1].heap, a, k)
    ensures r.states[m].locals[u].at.cur != a
  {
    hide Next, Init;
    StepOf(r, m);
    hide IsRun;
    UnlinkGoes(r.states[m], r.states[m + 1], u);
  }

  lemma UnlinkGoes(s: State, s': State, t: Tid)
    requires Next(s, s', t) && Unlinks(s, t)
    ensures !IsLinked(s'.heap, s.locals[t].at.cur)
  {
    hide H.PcOk, H.Slots;
  }

  lemma FoundOut(h: Heap, l: Local, w: Watch)
    requires OutOk(h, l, w) && l.op.Erase? && l.helping && l.at.Found? && l.at.cur != 0
    ensures w.marked && w.gone && (l.at.cur == w.victim ==> w.freed)
  {
  }

  /**
   * The second find of an erase never finds the node it marked, at a: that node has been out
   * of the list by then. When what it finds has the same address, the node marked has been
   * freed since, and its address handed out again.
   */
  lemma SecondFindIsAnother(r: Run, u: Tid, j: nat) returns (i: nat, a: Addr)
    requires IsRun(r) && j < |r.states| && u in r.states[j].locals && r.states[j].locals[u].at.Found?
    requires r.states[j].locals[u].op.Erase? && r.states[j].locals[u].helping && r.states[j].locals[u].at.cur != 0
    ensures MarkedAt(r, u, i, j, a) && !StandsSince(r, i, j, a, KeyOf(r.states[j].locals[u].op))
    ensures r.states[j].locals[u].at.cur == a ==>
              exists m {:trigger r.states[m].heap} :: i < m <= j && a !in r.states[m].heap
  {
    RunFollowed(r, u, j);
    hide Inv, IsRun, Marks, Standing, OutOk;
    WatchOk(r, u, j);
    FoundOut(r.states[j].heap, r.states[j].locals[u], WatchOf(r, u, j));
    i := MarkOf(r, u, j);
    a := WatchOf(r, u, j).victim;
  }

  // ---------------------------------------------------------------- the list at rest

  /** A node comes into the list only by its publishing CAS. */
  lemma WorkLinks(s: State, t: Tid, a: Addr)
    requires CanWork(s, t) && IsLinked(Work(s, t).heap, a) && !IsLinked(s.heap, a)
    ensures s.locals[t].at.LinkCas? && s.locals[t].node == a && s.locals[t].at.prev in s.heap
    ensures s.heap[s.locals[t].at.prev].next == Word(s.locals[t].at.cur, false)
  {
    hide H.SetSlot, H.Hold, H.RetireNode, HasRecord;
  }

  lemma LinkStep(s: State, s': State, t: Tid, a: Addr)
    requires Inv(s) && Next(s, s', t) && IsLinked(s'.heap, a) && !IsLinked(s.heap, a)
    ensures Publishes(s, t) && s.locals[t].node == a
  {
    hide Inv, H.PcOk, H.Slots, SmrStep, H.SetSlot, CanWork, Work;
    if s.smr.pcs[t].Ready? && !Between(s.locals[t].at) && !s.locals[t].at.NewNode? {
      if s.locals[t].at.Tower? {
        var top := TowerLeaves(s, s', t);
      } else {
        WorkLinks(s, t, a);
      }
    } else if s.locals[t].at.NewNode? {
      NewNodeLinks(s, s', t, a);
    }
  }

  lemma NewNodeLinks(s: State, s': State, t: Tid, a: Addr)
    requires Inv(s) && Next(s, s', t) && s.locals[t].at.NewNode?
    ensures IsLinked(s'.heap, a) ==> IsLinked(s.heap, a)
  {
    hide Inv, H.PcOk, H.Slots, SmrStep;
  }

  /** A node comes to stand marked only by the first marking CAS on it. */
  lemma TagStep(s: State, s': State, t: Tid, a: Addr, k: int)
    requires Inv(s) && Next(s, s', t) && Standing(s'.heap, a, k) && !Standing(s.heap, a, k)
    ensures Kills(s, t) && s.locals[t].at.cur == a
  {
    NextKeepsInv(s, s', t);
    NextEffect(s, s', t);
    HeadUnmarked(s');
    hide Inv, Next, Publishes, Kills;
    if !IsLinked(s.heap, a) {
      LinkStep(s, s', t, a);
    } else {
      assert NodeStep(s.heap[a], s'.heap[a], t);
    }
    assert !Live(s'.heap, s.head, a);
  }

  lemma HeadUnmarked(s: State)
    requires Inv(s)
    ensures s.head in s.heap && !s.heap[s.head].next.tag
  {
  }

  /** A marked node in the list was marked at a step of the run, and has stood there since. */
  lemma {:induction false} WhoMarked(r: Run, n: nat, a: Addr) returns (u: Tid, i: nat)
    requires IsRun(r) && n < |r.states| && IsLinked(r.states[n].heap, a) && r.states[n].heap[a].next.tag
    ensures |r.states| == |r.actors| + 1 && i < n && r.actors[i] == u && Kills(r.states[i], u)
    ensures r.states[i].locals[u].at.cur == a && StandsSince(r, i, n, a, r.states[n].heap[a].key)
    decreases n
  {
    hide Inv, Next, Kills;
    var k := r.states[n].heap[a].key;
    if n == 0 {
      assert false;
    } else {
      StepOf(r, n - 1);
      InvUpTo(r, n - 1);
      hide IsRun;
      if Standing(r.states[n - 1].heap, a, k) {
        u, i := WhoMarked(r, n - 1, a);
      } else {
        TagStep(r.states[n - 1], r.states[n], r.actors[n - 1], a, k);
        u, i := r.actors[n - 1], n - 1;
      }
    }
  }

  /** A call goes on while its thread is inside it. */
  lemma InsideCall(s: State, s': State, t: Tid)
    requires Inv(s) && Next(s, s', t) && t in s.locals && !Between(s.locals[t].at)
    ensures t in s'.locals && s'.locals[t].calls == s.locals[t].calls
  {
    hide Inv, H.PcOk, H.Slots, SmrStep, H.SetSlot, H.Hold, Work, CanWork;
    if s.smr.pcs[t].Ready? {
      if s.locals[t].at.Tower? {
        var top := TowerLeaves(s, s', t);
      } else if !s.locals[t].at.NewNode? {
        WorkCount(s, s', t, 0);
      } else {
        TurnOf(s, t);
        NewNodeIsInsert(s, t);
      }
    }
  }

  /** The last state of a call of u that has ended by n. */
  lemma {:induction false} EndOfCall(r: Run, u: Tid, i: nat, p: nat, n: nat) returns (j: nat)
    requires IsRun(r) && Followed(r, u) && SameCall(r, u, i, p) && p <= n < |r.states|
    requires Between(r.states[n].locals[u].at)
    ensures p <= j <= n && SameCall(r, u, i, j) && Between(r.states[j].locals[u].at)
    decreases n - p
  {
    hide Inv, IsRun, Next;
    if Between(r.states[p].locals[u].at) {
      j := p;
    } else {
      StepOf(r, p);
      assert Inv(r.states[p]);
      OthersUnmoved(r.states[p], r.states[p + 1], r.actors[p]);
      if r.actors[p] == u {
        InsideCall(r.states[p], r.states[p + 1], u);
      }
      SameCallGrows(r, u, i, p);
      j := EndOfCall(r, u, i, p + 1, n);
    }
  }

  lemma FindHelps(s: State, t: Tid)
    requires CanWork(s, t) && t in s.locals && s.locals[t].helping && FindAt(s.locals[t].at)
    ensures t in Work(s, t).locals && Work(s, t).locals[t].helping
  {
    hide H.SetSlot, H.Hold, H.RetireNode, HasRecord;
  }

  lemma WorkHelps(s: State, t: Tid)
    requires CanWork(s, t) && t in s.locals && s.locals[t].helping && !FindAt(s.locals[t].at)
    ensures t in Work(s, t).locals && Work(s, t).locals[t].helping
  {
    hide H.SetSlot, H.Hold, H.RetireNode, HasRecord;
  }

  /** Once it has marked, a call helps to its end. */
  lemma HelpStays(s: State, s': State, t: Tid)
    requires Inv(s) && Next(s, s', t) && t in s.locals && t in s'.locals && s.locals[t].helping
    requires s'.locals[t].calls == s.locals[t].calls
    ensures s'.locals[t].helping
  {
    hide Inv, H.PcOk, H.Slots, SmrStep, H.SetSlot, H.Hold, Work, CanWork;
    if s.smr.pcs[t].Ready? && !Between(s.locals[t].at) {
      if s.locals[t].at.Tower? {
        var top := TowerLeaves(s, s', t);
      } else if FindAt(s.locals[t].at) {
        FindHelps(s, t);
      } else if !s.locals[t].at.NewNode? {
        WorkHelps(s, t);
      } else {
        TurnOf(s, t);
        NewNodeIsInsert(s, t);
      }
    }
  }

  /** A call that helps does not mark again. */
  lemma MarksOnce(r: Run, u: Tid, p: nat)
    requires IsRun(r) && Followed(r, u) && p < |r.states| && r.states[p].locals[u].helping
    requires r.states[p].locals[u].op.Erase?
    ensures !Marks(r.states[p], u)
  {
    WitnessOk(r, u, p);
    hide Inv, IsRun, Entries;
  }

  lemma MarkHelps(s: State, s': State, t: Tid)
    requires Next(s, s', t) && Marks(s, t)
    ensures t in s'.locals && s'.locals[t].helping && s'.locals[t].calls == s.locals[t].calls
  {
    hide H.PcOk, H.Slots;
  }

  /** The watch on a call from its marking step on. */
  lemma {:induction false} WatchAfter(r: Run, u: Tid, i: nat, p: nat)
    requires IsRun(r) && Followed(r, u) && i < p && SameCall(r, u, i, p) && r.actors[i] == u
    requires Marks(r.states[i], u) && r.states[p].locals[u].op.Erase?
    ensures r.states[p].locals[u].helping
    ensures var a, k, w := r.states[i].locals[u].at.cur, KeyOf(r.states[p].locals[u].op), WatchOf(r, u, p);
            && w.marked && w.victim == a && (w.gone <==> !StandsSince(r, i, p, a, k))
            && (w.unlinked ==> exists m {:trigger r.actors[m]} ::
                  i < m < p && r.actors[m] == u && Unlinks(r.states[m], u))
    decreases p
  {
    hide Inv, IsRun, Next, Unlinks, Standing;
    StepOf(r, p - 1);
    assert Inv(r.states[p - 1]);
    assert r.states[p - 1].locals[u].calls == r.states[p].locals[u].calls;
    OthersUnmoved(r.states[p - 1], r.states[p], r.actors[p - 1]);
    if p == i + 1 {
      MarkHelps(r.states[i], r.states[p], u);
    } else {
      assert SameCall(r, u, i, p - 1);
      WatchAfter(r, u, i, p - 1);
      MarksOnce(r, u, p - 1);
      hide Marks;
      if r.actors[p - 1] == u {
        HelpStays(r.states[p - 1], r.states[p], u);
      }
    }
  }

  lemma EndedOut(h: Heap, l: Local, w: Watch)
    requires OutOk(h, l, w) && Between(l.at) && l.op.Erase? && l.helping && !w.gone
    ensures w.unlinked
  {
  }

  lemma KillsMarks(s: State, s': State, t: Tid)
    requires Inv(s) && Next(s, s', t) && Kills(s, t)
    ensures Marks(s, t) && s.locals[t].op.Erase? && s.heap[s.locals[t].at.cur].key == KeyOf(s.locals[t].op)
  {
    hide Inv, Next, LiveMore, HeapStep;
    NextEffect(s, s', t);
  }

  lemma StandsUpTo(r: Run, i: nat, j: nat, n: nat, a: Addr, k: int)
    requires StandsSince(r, i, n, a, k) && j <= n
    ensures StandsSince(r, i, j, a, k)
  {
  }

  /** A node that stands from its mark to a state in which the call is over: how the call left. */
  lemma LeftBy(r: Run, u: Tid, i: nat, n: nat, a: Addr, k: int) returns (m: nat)
    requires IsRun(r) && Followed(r, u) && i < n < |r.states| && i < |r.actors| && r.actors[i] == u
    requires Marks(r.states[i], u) && r.states[i].locals[u].at.cur == a && r.states[i].locals[u].op == Erase(k)
    requires StandsSince(r, i, n, a, k) && Between(r.states[n].locals[u].at)
    ensures |r.states| == |r.actors| + 1 && i < m < n && r.actors[m] == u && SameCall(r, u, i, m)
    ensures Unlinks(r.states[m], u) && r.states[m].locals[u].at.cur != a
  {
    hide Inv, IsRun, Next, Unlinks, Standing, AllInv;
    CallFrom(r, u, i);
    var j := EndOfCall(r, u, i, i + 1, n);
    WatchAfter(r, u, i, j);
    WatchOk(r, u, j);
    StandsUpTo(r, i, j, n, a, k);
    hide Marks, OutOk;
    EndedOut(r.states[j].heap, r.states[j].locals[u], WatchOf(r, u, j));
    m :| i < m < j && r.actors[m] == u && Unlinks(r.states[m], u);
    assert Standing(r.states[m + 1].heap, a, k);
    UnlinkedGoes(r, u, m, a, k);
  }

  /**
   * With no call under way, a marked node left in the list was marked by an erase (step i of
   * thread u) whose second find then left by unlinking a different node (step m). Nothing
   * else leaves a marked node behind.
   */
  lemma LeftBehind(r: Run, n: nat, a: Addr) returns (u: Tid, i: nat, m: nat)
    requires IsRun(r) && n < |r.states| && forall t :: t in r.states[n].locals ==> Between(r.states[n].locals[t].at)
    requires IsLinked(r.states[n].heap, a) && r.states[n].heap[a].next.tag
    ensures |r.states| == |r.actors| + 1 && i < m < n && r.actors[i] == u && r.actors[m] == u && SameCall(r, u, i, m)
    ensures Kills(r.states[i], u) && r.states[i].locals[u].at.cur == a
    ensures Unlinks(r.states[m], u) && r.states[m].locals[u].at.cur != a
    ensures StandsSince(r, i, n, a, r.states[n].heap[a].key)
  {
    var k := r.states[n].heap[a].key;
    u, i := WhoMarked(r, n, a);
    hide Inv, IsRun, Next, Kills, Unlinks, Standing, AllInv;
    MarkedBy(r, u, i, n, a, k);
    m := LeftBy(r, u, i, n, a, k);
  }

  lemma MarkedBy(r: Run, u: Tid, i: nat, n: nat, a: Addr, k: int)
    requires IsRun(r) && i < n < |r.states| && i < |r.actors| && r.actors[i] == u && Kills(r.states[i], u)
    requires r.states[i].locals[u].at.cur == a && StandsSince(r, i, n, a, k)
    ensures Followed(r, u) && Marks(r.states[i], u) && r.states[i].locals[u].op == Erase(k)
  {
    RunFollowed(r, u, i);
    StepOf(r, i);
    assert Inv(r.states[i]);
    hide Inv, IsRun, Next, Standing;
    KillsMarks(r.states[i], r.states[i + 1], u);
    KeyStays(r, i, n, a, k);
  }

  lemma CallFrom(r: Run, u: Tid, i: nat)
    requires IsRun(r) && Followed(r, u) && i < |r.actors| && r.actors[i] == u && Marks(r.states[i], u)
    ensures SameCall(r, u, i, i + 1)
  {
    hide Inv, IsRun, Next;
    StepOf(r, i);
    assert Inv(r.states[i]);
    MarkHelps(r.states[i], r.states[i + 1], u);
    OthersUnmoved(r.states[i], r.states[i + 1], u);
  }

  /** The node marked at step i has the key it has later. */
  lemma KeyStays(r: Run, i: nat, n: nat, a: Addr, k: int)
    requires IsRun(r) && i < n < |r.states| && i < |r.actors| && StandsSince(r, i, n, a, k) && Inv(r.states[i])
    requires a in r.states[i].heap
    ensures r.states[i].heap[a].key == k
  {
    hide IsRun, Inv, Next;
    StepOf(r, i);
    assert Standing(r.states[i + 1].heap, a, k);
    StepKeepsNode(r.states[i], r.states[i + 1], r.actors[i], a);
  }
}