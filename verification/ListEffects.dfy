/** What each step does to the heap, and so to the map: two kinds of step change it, all others stutter. */
module ListEffects {
  import opened Words
  import H = HazardPointers
  import opened ListMap
  import opened ListInv
  import opened ListFrame
  import opened ListQuiet
  import opened ListFind
  import opened ListHeap
  import opened ListChange
  import opened ListPublish
  import opened ListRetire
  import opened ListReclaim
  import opened ListAbs
  import opened ListSafety

  /** insert's publishing CAS is about to succeed. */
  predicate Publishes(s: State, t: Tid)
    reads {}
  {
    && t in s.locals && t in s.smr.pcs && s.smr.pcs[t].Ready? && s.locals[t].at.LinkCas?
    && s.locals[t].at.prev in s.heap && s.heap[s.locals[t].at.prev].next == Word(s.locals[t].at.cur, false)
  }

  /** erase's first marking CAS on a node is about to succeed. */
  predicate Kills(s: State, t: Tid)
    reads {}
  {
    && t in s.locals && t in s.smr.pcs && s.smr.pcs[t].Ready? && s.locals[t].at.MarkCas?
    && s.locals[t].at.cur in s.heap && s.heap[s.locals[t].at.cur].next == s.locals[t].at.link
         && !s.locals[t].at.link.tag
  }

  /** The entries are the same and so are the counts of entries made and removed. */
  ghost predicate Stutters(s: State, s': State)
    reads {}
  {
    LiveSame(s.heap, s.head, s'.heap) && s'.pubs == s.pubs && s'.wins == s.wins
  }

  // ---------------------------------------------------------------- one heap change at a time

  lemma SameHeap(s: State, s': State, t: Tid)
    requires s'.heap == s.heap && s'.head == s.head && s'.tower == s.tower && s'.pubs == s.pubs && s'.wins == s.wins
    ensures HeapStep(s, s', t) && Stutters(s, s')
  {
  }

  /** A change to a node that is live neither before nor after. */
  lemma DeadChange(s: State, s': State, t: Tid, c: Addr, n: Node)
    requires s'.heap == s.heap[c := n] && s'.head == s.head && s'.tower == s.tower && s'.pubs == s.pubs
    requires s'.wins == s.wins
    requires c in s.heap ==> NodeStep(s.heap[c], n, t)
    requires !Live(s.heap, s.head, c) && !Live(s'.heap, s.head, c)
    ensures HeapStep(s, s', t) && Stutters(s, s')
  {
  }

  lemma UnlinkEffect(s: State, t: Tid)
    requires Turn(s, t) && s.locals[t].at.UnlinkCas? && s.locals[t].at.prev in s.heap && s.locals[t].at.cur in s.heap
    requires s.heap[s.locals[t].at.prev].next == Word(s.locals[t].at.cur, false)
    ensures HeapStep(s, DoUnlinkCas(s, t), t) && Stutters(s, DoUnlinkCas(s, t))
  {
    hide Inv, ListOk, LocOk;
    var UnlinkCas(prev, cur, w) := s.locals[t].at;
    var s' := DoUnlinkCas(s, t);
    UnlinkFacts(s.heap, s.head, s.smr.recs, Mine(s, t), t, s.locals[t]);
    UnlinkHeap(s.heap, s.head, prev, cur, t, UnlinkedHeap(s.heap, prev, cur, w, t));
    UnlinkNodes(s.heap, prev, cur, w, t);
    assert s'.heap == UnlinkedHeap(s.heap, prev, cur, w, t);
    assert forall a {:trigger s'.heap[a]} :: a != prev && a != cur && a in s.heap ==> s'.heap[a] == s.heap[a];
  }

  lemma DropRefEffect(s: State, t: Tid)
    requires Turn(s, t) && s.locals[t].at.DropRef? && s.locals[t].at.cur in s.heap
    ensures HeapStep(s, DoDropRef(s, t), t) && Stutters(s, DoDropRef(s, t))
  {
    hide Inv, ListOk, LocOk;
    var cur := s.locals[t].at.cur;
    TurnDeep(s, t);
    DropRefFacts(s.heap, s.head, s.smr.recs, Mine(s, t), t, s.locals[t]);
    DropRefNode(s.heap[cur], t);
    hide NodesOk, NodeOk;
    DeadChange(s, DoDropRef(s, t), t, cur, DoDropRef(s, t).heap[cur]);
  }

  lemma RetireEffect(s: State, s': State, t: Tid)
    requires Turn(s, t) && (s.locals[t].at.RetireDead? || s.locals[t].at.RetireOwn?) && s.locals[t].at.cur in s.heap
    requires var cur := s.locals[t].at.cur; s'.heap == s.heap[cur := s.heap[cur].(stage := Retired)]
    requires s'.head == s.head && s'.tower == s.tower && s'.pubs == s.pubs && s'.wins == s.wins
    ensures HeapStep(s, s', t) && Stutters(s, s')
  {
    hide Inv, ListOk, LocOk;
    var cur := s.locals[t].at.cur;
    TurnDeep(s, t);
    RetireDeadFacts(s.heap, s.head, s.smr.recs, Mine(s, t), t, s.locals[t]);
    hide NodesOk, NodeOk;
    DeadChange(s, s', t, cur, s'.heap[cur]);
  }

  lemma NewNodeEffect(s: State, t: Tid, a: Addr)
    requires Turn(s, t) && s.locals[t].at.NewNode? && s.locals[t].op.Insert? && a != 0 && a !in s.heap
    ensures HeapStep(s, DoNewNode(s, t, a), t) && Stutters(s, DoNewNode(s, t, a))
  {
    hide Inv, ListOk, LocOk;
    DeadChange(s, DoNewNode(s, t, a), t, a, DoNewNode(s, t, a).heap[a]);
  }

  lemma LinkStoreEffect(s: State, t: Tid)
    requires Turn(s, t) && s.locals[t].at.LinkStore? && s.locals[t].node in s.heap
    ensures HeapStep(s, DoLinkStore(s, t), t) && Stutters(s, DoLinkStore(s, t))
  {
    hide Inv, LocOk, ListOk;
    var a := s.locals[t].node;
    TurnDeep(s, t);
    LinkStoreFacts(s.heap, s.head, s.smr.recs, Mine(s, t), t, s.locals[t]);
    assert !s.heap[a].next.tag;
    hide NodesOk;
    DeadChange(s, DoLinkStore(s, t), t, a, DoLinkStore(s, t).heap[a]);
  }

  lemma SubRefsEffect(s: State, t: Tid)
    requires Turn(s, t) && s.locals[t].at.SubRefs? && s.locals[t].node in s.heap
    ensures HeapStep(s, DoSubRefs(s, t), t) && Stutters(s, DoSubRefs(s, t))
  {
    hide Inv, LocOk, ListOk;
    var a := s.locals[t].node;
    var s' := DoSubRefs(s, t);
    TurnDeep(s, t);
    PaidFacts(s.heap, s.head, s.smr.recs, Mine(s, t), t, s.locals[t]);
    SubRefsNode(s.heap[a], t);
    hide NodesOk, NodeOk;
    assert forall b {:trigger s'.heap[b]} :: b != a && b in s.heap ==> s'.heap[b] == s.heap[b];
  }

  lemma FreeOwnEffect(s: State, t: Tid)
    requires Turn(s, t) && s.locals[t].at.FreeOwn?
    ensures HeapStep(s, DoFreeOwn(s, t), t) && Stutters(s, DoFreeOwn(s, t))
  {
    hide Inv, LocOk, ListOk;
    var a := s.locals[t].node;
    FreeOwnFacts(s.heap, s.head, s.smr.recs, Mine(s, t), t, s.locals[t]);
    assert forall b {:trigger DoFreeOwn(s, t).heap[b]} :: b != a && b in s.heap ==>
        DoFreeOwn(s, t).heap[b] == s.heap[b];
  }

  lemma ReclaimEffect(s: State, t: Tid)
    requires Inv(s) && t in s.locals && t in s.smr.pcs && H.PcOk(s.smr, s.smr.pcs[t]) && H.Slots(s.smr)
    ensures HeapStep(s, DoReclaim(s, t), t) && Stutters(s, DoReclaim(s, t))
  {
    hide Inv, H.Inv, ListOk, SameSlots, PcStep, SmrStep;
    InvParts(s, t);
    ReclaimParts(s, t);
  }

  /** A second marking of a marked node changes nothing; the first one kills it. */
  lemma MarkEffect(s: State, t: Tid)
    requires Turn(s, t) && s.locals[t].at.MarkCas? && s.locals[t].at.cur in s.heap
    requires s.heap[s.locals[t].at.cur].next == s.locals[t].at.link
    ensures var s' := DoMarkCas(s, t);
            && HeapStep(s, s', t)
            && if s.locals[t].at.link.tag then Stutters(s, s')
               else LiveMore(s'.heap, s.head, s.locals[t].at.cur, s.heap) && s'.pubs == s.pubs && s'.wins == s.wins + 1
  {
    hide Inv, ListOk, LocOk;
    var s' := DoMarkCas(s, t);
    var MarkCas(cur, w) := s.locals[t].at;
    TurnDeep(s, t);
    MarkFacts(s.heap, s.head, s.smr.recs, Mine(s, t), t, s.locals[t]);
    if w.tag {
      assert s'.heap == s.heap;
    } else {
      assert IsLinked(s.heap, cur);
      hide NodesOk;
      assert forall b {:trigger s'.heap[b]} :: b != cur && b in s.heap ==> s'.heap[b] == s.heap[b];
    }
  }

  lemma PublishEffect(s: State, t: Tid)
    requires Turn(s, t) && s.locals[t].at.LinkCas? && s.locals[t].at.prev in s.heap && s.locals[t].node in s.heap
    requires s.heap[s.locals[t].at.prev].next == Word(s.locals[t].at.cur, false)
    ensures var s' := DoLinkCas(s, t);
            && HeapStep(s, s', t) && LiveMore(s.heap, s.head, s.locals[t].node, s'.heap)
            && s'.heap[s.locals[t].node].key == s.locals[t].op.key
                 && s'.heap[s.locals[t].node].value == s.locals[t].op.value
            && s'.pubs == s.pubs + 1 && s'.wins == s.wins
  {
    hide Inv, LocOk, ListOk;
    var LinkCas(prev, cur) := s.locals[t].at;
    var s' := DoLinkCas(s, t);
    var n := s.locals[t].node;
    TurnDeep(s, t);
    LinkCasFacts(s.heap, s.head, s.smr.recs, Mine(s, t), t, s.locals[t]);
    assert !s.heap[n].next.tag;
    assert s'.heap == PublishedHeap(s.heap, prev, n, t);
    PublishNodes(s.heap, prev, n, t);
    hide NodesOk, NodeOk;
    assert forall b {:trigger s'.heap[b]} :: b != prev && b != n && b in s.heap ==> s'.heap[b] == s.heap[b];
  }

  // ---------------------------------------------------------------- any step

  /** The effect of a step on the entries, by kind. */
  ghost predicate Effect(s: State, s': State, t: Tid)
    requires t in s.locals
    reads {}
  {
    && HeapStep(s, s', t)
    && if Publishes(s, t) then
         var l := s.locals[t];
         && l.op.Insert? && l.node in s'.heap && LiveMore(s.heap, s.head, l.node, s'.heap)
         && s'.heap[l.node].key == l.op.key && s'.heap[l.node].value == l.op.value
         && s'.pubs == s.pubs + 1 && s'.wins == s.wins
       else if Kills(s, t) then
         var l := s.locals[t];
         && l.op.Erase? && s.heap[l.at.cur].key == l.op.key
         && LiveMore(s'.heap, s.head, l.at.cur, s.heap) && s'.pubs == s.pubs && s'.wins == s.wins + 1
       else Stutters(s, s')
  }

  lemma WorkEffect(s: State, t: Tid)
    requires Turn(s, t) && CanWork(s, t) && !Between(s.locals[t].at) && !s.locals[t].at.NewNode?
    requires !s.locals[t].at.Tower?
    ensures Effect(s, Work(s, t), t)
  {
    hide Inv, LocOk, ListOk, Effect, HeapStep, LiveSame, LiveMore;
    var at := s.locals[t].at;
    var s' := Work(s, t);
    if at.MarkCas? {
      MarkWorkEffect(s, t);
    } else if at.LinkCas? {
      LinkWorkEffect(s, t);
    } else {
      if at.UnlinkCas? && s.heap[at.prev].next == Word(at.cur, false) {
        UnlinkEffect(s, t);
      } else if at.DropRef? {
        DropRefEffect(s, t);
      } else if at.RetireDead? || at.RetireOwn? {
        RetireEffect(s, s', t);
      } else if at.LinkStore? {
        LinkStoreEffect(s, t);
      } else if at.SubRefs? {
        SubRefsEffect(s, t);
      } else if at.FreeOwn? {
        FreeOwnEffect(s, t);
      } else {
        SameHeap(s, s', t);
      }
      NoChange(s, s', t);
    }
  }

  lemma NoChange(s: State, s': State, t: Tid)
    requires t in s.locals && !Publishes(s, t) && !Kills(s, t) && HeapStep(s, s', t) && Stutters(s, s')
    ensures Effect(s, s', t)
  {
  }

  lemma MarkWorkEffect(s: State, t: Tid)
    requires Turn(s, t) && CanWork(s, t) && s.locals[t].at.MarkCas?
    ensures Effect(s, Work(s, t), t)
  {
    hide Inv, LocOk, ListOk, HeapStep, LiveSame, LiveMore;
    var MarkCas(cur, w) := s.locals[t].at;
    MarkFacts(s.heap, s.head, s.smr.recs, Mine(s, t), t, s.locals[t]);
    if s.heap[cur].next == w {
      MarkEffect(s, t);
    } else {
      SameHeap(s, Work(s, t), t);
    }
  }

  lemma LinkWorkEffect(s: State, t: Tid)
    requires Turn(s, t) && CanWork(s, t) && s.locals[t].at.LinkCas?
    ensures Effect(s, Work(s, t), t)
  {
    hide Inv, LocOk, ListOk, HeapStep, LiveSame, LiveMore;
    var LinkCas(prev, cur) := s.locals[t].at;
    LinkStoreFacts(s.heap, s.head, s.smr.recs, Mine(s, t), t, s.locals[t]);
    if s.heap[prev].next == Word(cur, false) {
      PublishEffect(s, t);
      assert Publishes(s, t);
      assert Work(s, t) == DoLinkCas(s, t);
      assert s.locals[t].node in Work(s, t).heap;
    } else {
      SameHeap(s, Work(s, t), t);
    }
  }

  lemma NextEffect(s: State, s': State, t: Tid)
    requires Inv(s) && Next(s, s', t)
    ensures Effect(s, s', t)
  {
    hide Inv, Turn, Work, CanWork, H.PcOk, H.Slots, Effect, HeapStep, LiveSame, LiveMore;
    if !s.smr.pcs[t].Ready? {
      ReclaimEffect(s, t);
      NoChange(s, s', t);
    } else {
      TurnOf(s, t);
      if Between(s.locals[t].at) {
        if s' == DoReclaim(s, t) { ReclaimEffect(s, t); } else { SameHeap(s, s', t); }
        NoChange(s, s', t);
      } else {
        InsideEffect(s, s', t);
      }
    }
  }

  lemma InsideEffect(s: State, s': State, t: Tid)
    requires Turn(s, t) && Next(s, s', t) && !Between(s.locals[t].at)
    ensures Effect(s, s', t)
  {
    hide Inv, LocOk, ListOk, CanWork, Work, H.PcOk, H.Slots, Effect, HeapStep, LiveSame, LiveMore;
    NewNodeIsInsert(s, t);
    if s.locals[t].at.NewNode? {
      var a :| a != 0 && a !in s.heap && s' == DoNewNode(s, t, a);
      NewNodeEffect(s, t, a);
      NoChange(s, s', t);
    } else if s.locals[t].at.Tower? {
      var top := TowerLeaves(s, s', t);
      SameHeap(s, s', t);
      NoChange(s, s', t);
    } else {
      WorkEffect(s, t);
    }
  }

  // ---------------------------------------------------------------- linearization points

  /** The entries in a state. */
  ghost function Entries(s: State): map<int, int>
    requires Inv(s)
    reads {}
  {
    Abs(s.heap, s.head)
  }

  /**
   * insert takes effect at its publishing CAS, where its key was absent; erase at its
   * first marking CAS, where its key was present; no other step of any thread changes
   * the map.
   */
  lemma StepLinearizes(s: State, s': State, t: Tid)
    requires Inv(s) && Next(s, s', t)
    ensures Inv(s') && s'.head == s.head
    ensures Publishes(s, t) ==>
              var op := s.locals[t].op;
              && op.Insert? && op.key !in Entries(s) && Entries(s') == Entries(s)[op.key := op.value]
              && s'.pubs == s.pubs + 1 && s'.wins == s.wins
    ensures Kills(s, t) ==>
              var op := s.locals[t].op;
              && op.Erase? && op.key in Entries(s) && Entries(s') == Entries(s) - {op.key}
              && s'.pubs == s.pubs && s'.wins == s.wins + 1
    ensures !Publishes(s, t) && !Kills(s, t) ==> Entries(s') == Entries(s) && s'.pubs == s.pubs && s'.wins == s.wins
  {
    NextKeepsInv(s, s', t);
    NextEffect(s, s', t);
    assert KeysDiffer(s.heap, s.head) && KeysDiffer(s'.heap, s'.head);
    hide Inv, Next, Abs, KeysDiffer, LiveMore, LiveSame;
    assert s'.head == s.head;
    if Publishes(s, t) {
      AbsMore(s.heap, s.head, s.locals[t].node, s'.heap);
    } else if Kills(s, t) {
      AbsLess(s.heap, s.head, s.locals[t].at.cur, s'.heap);
    } else {
      AbsSame(s.heap, s.head, s'.heap);
    }
  }
}
