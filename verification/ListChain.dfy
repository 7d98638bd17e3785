/** The shape of the list in every reachable state, and the life of a node from publication to release. */
module ListChain {
  import opened Words
  import H = HazardPointers
  import opened ListMap
  import opened ListInv
  import opened ListFrame
  import opened ListFind
  import opened ListChange
  import opened ListPublish
  import opened ListSafety
  import opened ListEffects
  import opened ListRuns

  // ---------------------------------------------------------------- the chain from the head

  /** The linked nodes further on than a. */
  ghost function After(h: Heap, head: Addr, a: Addr): set<Addr>
    requires a in h
    reads {}
  {
    set c | c in h && IsLinked(h, c) && Before(h, head, a, c)
  }

  lemma AfterShrinks(h: Heap, head: Addr, a: Addr)
    requires ListOk(h, head) && IsLinked(h, a) && h[a].next.ptr != 0
    ensures IsLinked(h, h[a].next.ptr)
    ensures After(h, head, a) == After(h, head, h[a].next.ptr) + {h[a].next.ptr}
    ensures |After(h, head, h[a].next.ptr)| < |After(h, head, a)|
  {
    var b := h[a].next.ptr;
    assert IsLinked(h, b) && Before(h, head, a, b);
    forall c | c in After(h, head, a) ensures c in After(h, head, b) + {b} {
      assert IsLinked(h, c);
    }
    assert b !in After(h, head, b);
  }

  /** The nodes met by following next pointers from a, marks ignored. */
  ghost function Chain(h: Heap, head: Addr, a: Addr): (c: seq<Addr>)
    requires ListOk(h, head) && IsLinked(h, a)
    reads {}
    decreases |After(h, head, a)|
  {
    if h[a].next.ptr == 0 then [a]
    else
      AfterShrinks(h, head, a);
      [a] + Chain(h, head, h[a].next.ptr)
  }

  /** The chain from a linked node holds exactly the linked nodes at or after it. */
  lemma {:induction false} ChainHolds(h: Heap, head: Addr, a: Addr)
    requires ListOk(h, head) && IsLinked(h, a)
    ensures forall c {:trigger c in Chain(h, head, a)} :: c in Chain(h, head, a) <==> c == a || c in After(h, head, a)
    decreases |After(h, head, a)|
  {
    hide ListOk;
    if h[a].next.ptr == 0 {
      assert After(h, head, a) == {} by { LastHasNothingAfter(h, head, a); }
    } else {
      AfterShrinks(h, head, a);
      ChainHolds(h, head, h[a].next.ptr);
    }
  }

  lemma LastHasNothingAfter(h: Heap, head: Addr, a: Addr)
    requires ListOk(h, head) && IsLinked(h, a) && h[a].next.ptr == 0
    ensures After(h, head, a) == {}
  {
    forall c | c in h ensures !(IsLinked(h, c) && Before(h, head, a, c)) {
      assert IsLinked(h, a);
    }
  }

  /** The head if at all first, then strictly rising keys. */
  ghost predicate Ascending(h: Heap, head: Addr, c: seq<Addr>)
    reads {}
  {
    forall i, j :: 0 <= i < j < |c| ==> c[i] in h && c[j] in h && Before(h, head, c[i], c[j])
  }

  /** ... in strictly ascending order, so no node twice: the chain is acyclic. */
  lemma {:induction false} ChainSorted(h: Heap, head: Addr, a: Addr)
    requires ListOk(h, head) && IsLinked(h, a)
    ensures Ascending(h, head, Chain(h, head, a))
    decreases |After(h, head, a)|
  {
    hide ListOk;
    if h[a].next.ptr != 0 {
      var b := h[a].next.ptr;
      AfterShrinks(h, head, a);
      ChainSorted(h, head, b);
      ChainHolds(h, head, b);
      var c := Chain(h, head, a);
      assert c == [a] + Chain(h, head, b);
      forall i, j | 0 <= i < j < |c| ensures c[i] in h && c[j] in h && Before(h, head, c[i], c[j]) {
        assert c[j] == Chain(h, head, b)[j - 1] && c[j] in Chain(h, head, b);
        if i > 0 {
          assert c[i] == Chain(h, head, b)[i - 1];
        }
      }
    }
  }

  /**
   * In every reachable state the level-0 chain is sorted and acyclic, marked nodes
   * included, and it reaches every node that is published and not yet unlinked; in
   * particular every unmarked one.
   */
  lemma ChainInEveryState(r: Run, n: nat)
    requires IsRun(r) && n < |r.states|
    ensures Inv(r.states[n])
    ensures var s := r.states[n];
            && IsLinked(s.heap, s.head)
            && (forall a {:trigger IsLinked(s.heap, a)} :: IsLinked(s.heap, a) <==> a in Chain(s.heap, s.head, s.head))
            && (forall a {:trigger Live(s.heap, s.head, a)} :: Live(s.heap, s.head, a) ==>
                 a in Chain(s.heap, s.head, s.head))
            && Ascending(s.heap, s.head, Chain(s.heap, s.head, s.head))
  {
    InvUpTo(r, n);
    hide IsRun;
    var s := r.states[n];
    assert ListOk(s.heap, s.head);
    hide Inv;
    HeadLinked(s.heap, s.head);
    hide ListOk;
    ChainHolds(s.heap, s.head, s.head);
    ChainSorted(s.heap, s.head, s.head);
    HeadFirst(s.heap, s.head);
  }

  lemma HeadFirst(h: Heap, head: Addr)
    requires head in h
    ensures forall a {:trigger IsLinked(h, a)} :: IsLinked(h, a) <==>
              (IsLinked(h, head) && a == head) || a in After(h, head, head)
  {
  }

  // ---------------------------------------------------------------- the life of a node

  /** A marked node's next field is frozen for as long as the node exists; keys and values never change. */
  lemma MarkedIsFrozen(s: State, s': State, t: Tid, a: Addr)
    requires Inv(s) && Next(s, s', t) && a in s.heap && a in s'.heap
    ensures s.heap[a].next.tag ==> s'.heap[a].next == s.heap[a].next
    ensures s'.heap[a].key == s.heap[a].key && s'.heap[a].value == s.heap[a].value
    ensures s'.heap[a].height == s.heap[a].height
  {
    hide Inv, Next;
    NextEffect(s, s', t);
    assert NodeStep(s.heap[a], s'.heap[a], t);
  }

  lemma {:induction false} FrozenForever(r: Run, i: nat, j: nat, a: Addr)
    requires IsRun(r) && i <= j < |r.states|
    requires forall m {:trigger r.states[m].heap} :: i <= m <= j ==> a in r.states[m].heap
    requires r.states[i].heap[a].next.tag
    ensures r.states[j].heap[a].next == r.states[i].heap[a].next && r.states[j].heap[a].key == r.states[i].heap[a].key
    decreases j
  {
    hide Inv, Next, Init;
    if i < j {
      FrozenForever(r, i, j - 1, a);
      InvUpTo(r, j - 1);
      StepOf(r, j - 1);
      hide IsRun;
      MarkedIsFrozen(r.states[j - 1], r.states[j], r.actors[j - 1], a);
    }
  }

  /**
   * Reference accounting: link_count is one for the linked level (or its unlink not yet
   * paid for) plus the overage insert has not subtracted. It never wraps.
   */
  lemma LinkCountExact(r: Run, n: nat, a: Addr)
    requires IsRun(r) && n < |r.states| && a in r.states[n].heap && a != r.states[n].head
    ensures var x := r.states[n].heap[a];
            && 0 <= x.links <= MAX_HEIGHT && x.links == Refs(x)
            && (x.links == 0 <==> x.stage.Doomed? || x.stage.Retired?)
  {
    InvUpTo(r, n);
    assert NodeOk(r.states[n].heap[a]);
  }

  /** A node about to be retired has no references left, is out of the list, marked, and on no retire list. */
  lemma RetiredAfterUnlinking(s: State, t: Tid)
    requires Inv(s) && t in s.locals && s.smr.pcs[t].Ready? && (s.locals[t].at.RetireDead? || s.locals[t].at.RetireOwn?)
    ensures var a := s.locals[t].at.cur;
            a in s.heap && !IsLinked(s.heap, a) && s.heap[a].next.tag && s.heap[a].links == 0
                && a !in H.Pending(s.smr.recs)
  {
    TurnOf(s, t);
    hide Inv, LocOk;
    TurnDeep(s, t);
    RetireFacts(s, t);
    assert NodeOk(s.heap[s.locals[t].at.cur]);
  }

  /** The unlinker and the inserter never both retire it. */
  lemma RetiredByOne(s: State, t: Tid, u: Tid)
    requires Inv(s) && t in s.locals && s.smr.pcs[t].Ready? && (s.locals[t].at.RetireDead? || s.locals[t].at.RetireOwn?)
    requires u in s.locals && u != t && s.smr.pcs[u].Ready? && (s.locals[u].at.RetireDead? || s.locals[u].at.RetireOwn?)
    ensures s.locals[t].at.cur != s.locals[u].at.cur
  {
    TurnOf(s, t);
    TurnOf(s, u);
    hide Inv, LocOk;
    RetireFacts(s, t);
    RetireFacts(s, u);
  }

  lemma RetireFacts(s: State, t: Tid)
    requires Turn(s, t) && (s.locals[t].at.RetireDead? || s.locals[t].at.RetireOwn?)
    ensures var a := s.locals[t].at.cur; a in s.heap && a != s.head && s.heap[a].stage == Doomed(t)
  {
    hide Inv;
  }

  /** No thread is inside an operation or reclaiming. */
  ghost predicate Quiescent(s: State)
    reads {}
  {
    forall t :: t in s.locals ==> Between(s.locals[t].at)
  }

  /** Nothing leaks: between operations every node is in the list or on a retire list. */
  lemma NoLeak(r: Run, n: nat)
    requires IsRun(r) && n < |r.states| && Quiescent(r.states[n])
    ensures var s := r.states[n];
            forall a {:trigger IsLinked(s.heap, a)} :: a in s.heap <==>
                IsLinked(s.heap, a) || a in H.Pending(s.smr.recs)
  {
    InvUpTo(r, n);
    hide IsRun;
    var s := r.states[n];
    forall a | a in s.heap ensures IsLinked(s.heap, a) || s.heap[a].stage.Retired? {
      IdleNode(s, a);
    }
  }

  lemma IdleNode(s: State, a: Addr)
    requires Inv(s) && Quiescent(s) && a in s.heap
    ensures s.heap[a].stage.Linked? || s.heap[a].stage.Retired?
  {
    assert OwedAt(s.locals, s.heap, a);
    forall u | u in s.locals ensures s.locals[u].node == 0 {
      assert LocalOk(s, u);
    }
    assert a != s.head ==> NodeOk(s.heap[a]);
  }
}
