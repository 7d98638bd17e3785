/** Following one thread through a run: its witness stays true of it, whoever takes the next step. */
module ListWitness {
  import opened Words
  import H = HazardPointers
  import opened ListMap
  import opened ListInv
  import opened ListFrame
  import opened ListQuiet
  import opened ListFind
  import opened ListChange
  import opened ListReclaim
  import opened ListSafety
  import opened ListEffects
  import opened ListTrace

  // ---------------------------------------------------------------- how often a call changed the map

  /** The call has changed the map (and will not change it again). */
  predicate Done(l: Local)
    reads {}
  {
    match l.op
    case Insert(_, _, _) =>
      l.at.ReadHeight? || l.at.Tower? || l.at.SubRefs? || l.at.RetireOwn?
          || ((l.at.ClearSlot? || l.at.FreeOwn? || l.at.Returned?) && l.at.result)
    case Erase(_) => if l.at.ClearSlot? || l.at.FreeOwn? || l.at.Returned? then l.at.result else l.won && !l.at.Idle?
    case _ => false
  }

  /** erase marks before it helps, and only then can it have won. */
  predicate FlagsOk(l: Local)
    reads {}
  {
    l.op.Erase? && !Between(l.at) ==> (!l.helping ==> !l.won) && (EraseAt(l.at) ==> !l.helping)
  }

  predicate CountOk(l: Local, effects: nat)
    reads {}
  {
    FlagsOk(l) && effects == if Done(l) then 1 else 0
  }

  predicate Changes(s: State, t: Tid)
    reads {}
  {
    Publishes(s, t) || Kills(s, t)
  }

  lemma CountFits(h: Heap, head: Addr, recs: seq<H.Record>, rec: H.Record, t: Tid, l: Local)
    requires LocOk(h, head, recs, rec, t, l)
    ensures Fits(l) && (l.at.Tower? || l.at.SubRefs? || l.at.ReadHeight? ==> l.op.Insert?)
  {
  }

  lemma TurnCount(s: State, t: Tid)
    requires Turn(s, t) && !Between(s.locals[t].at)
    ensures var l := s.locals[t]; Fits(l) && (l.at.Tower? || l.at.SubRefs? || l.at.ReadHeight? ==> l.op.Insert?)
  {
    hide Inv, ListOk, LocOk, Fits;
    CountFits(s.heap, s.head, s.smr.recs, Mine(s, t), t, s.locals[t]);
  }

  /** Only t's own location and local variables change, and t stays inside its call. */
  predicate Moved(s: State, s': State, t: Tid)
    reads {}
  {
    t in s.locals && t in s'.locals && s'.locals == s.locals[t := s'.locals[t]]
    && s'.locals[t].calls == s.locals[t].calls && s'.locals[t].op == s.locals[t].op
  }

  predicate NextAt(at: Loc)
    reads {}
  {
    at.NextLoad? || at.NextSet? || at.NextCheck? || at.PrevCheck?
  }

  lemma StillFinding(l: Local, l': Local, e: nat)
    requires l' == l.(at := l'.at) && FindAt(l.at) && FindAt(l'.at)
    ensures CountOk(l, e) ==> CountOk(l', e)
  {
  }

  lemma NextCount(s: State, s': State, t: Tid, e: nat)
    requires CanWork(s, t) && s' == Work(s, t) && NextAt(s.locals[t].at)
    ensures Moved(s, s', t)
    ensures Fits(s.locals[t]) && CountOk(s.locals[t], e) ==> CountOk(s'.locals[t], e) && !Changes(s, t)
  {
    hide H.SetSlot, H.Hold, CountOk, Fits;
    assert Moved(s, s', t) && s'.locals[t] == s.locals[t].(at := s'.locals[t].at) && FindAt(s'.locals[t].at);
    StillFinding(s.locals[t], s'.locals[t], e);
  }

  lemma HopCount(s: State, s': State, t: Tid, e: nat)
    requires CanWork(s, t) && s' == Work(s, t) && HopAt(s.locals[t].at) && !NextAt(s.locals[t].at)
    ensures Moved(s, s', t)
    ensures Fits(s.locals[t]) && CountOk(s.locals[t], e) ==> CountOk(s'.locals[t], e) && !Changes(s, t)
  {
    hide H.SetSlot, H.Hold, CountOk, Fits;
    assert Moved(s, s', t) && s'.locals[t] == s.locals[t].(at := s'.locals[t].at) && FindAt(s'.locals[t].at);
    StillFinding(s.locals[t], s'.locals[t], e);
  }

  lemma FindCount(s: State, s': State, t: Tid, e: nat)
    requires CanWork(s, t) && s' == Work(s, t) && FindAt(s.locals[t].at) && !HopAt(s.locals[t].at)
    ensures Moved(s, s', t)
    ensures Fits(s.locals[t]) && CountOk(s.locals[t], e) ==> CountOk(s'.locals[t], e) && !Changes(s, t)
  {
    hide H.SetSlot, H.Hold;
  }

  lemma StillReading(l: Local, l': Local, e: nat)
    requires l' == l.(at := l'.at) && Fits(l) && (ReadAt(l.at) || l.at.FirstCheck?)
    requires (l.at.ReadHeight? ==> l.op.Insert?)
    requires l.at.ReadHeight? <==> l'.at.Tower?
    requires l.at.MarkLoad? <==> l'.at.MarkCas?
    requires l'.at.ClearSlot? ==> l.at.ReadKey? || l.at.ReadValue?
    requires !l'.at.ReadHeight? && !l'.at.MarkLoad?
    requires l'.at.Tower? || l'.at.MarkCas? || l'.at.ClearSlot? || l'.at.LinkStore? || FindAt(l'.at)
             || ReadAt(l'.at) || l'.at.FirstCheck?
    ensures CountOk(l, e) ==> CountOk(l', e)
  {
  }

  lemma ReadCount(s: State, s': State, t: Tid, e: nat)
    requires CanWork(s, t) && s' == Work(s, t) && ReadAt(s.locals[t].at)
    ensures Moved(s, s', t)
    ensures Fits(s.locals[t]) && CountOk(s.locals[t], e) && (s.locals[t].at.ReadHeight? ==> s.locals[t].op.Insert?) ==>
              CountOk(s'.locals[t], e) && !Changes(s, t)
  {
    hide H.SetSlot, H.Hold, CountOk, Fits;
    var l, l' := s.locals[t], s'.locals[t];
    assert Moved(s, s', t) && l' == l.(at := l'.at);
    if Fits(l) && (l.at.ReadHeight? ==> l.op.Insert?) {
      StillReading(l, l', e);
    }
  }

  lemma FirstCheckCount(s: State, s': State, t: Tid, e: nat)
    requires CanWork(s, t) && s' == Work(s, t) && s.locals[t].at.FirstCheck?
    ensures Moved(s, s', t)
    ensures Fits(s.locals[t]) && CountOk(s.locals[t], e) ==> CountOk(s'.locals[t], e) && !Changes(s, t)
  {
    hide H.SetSlot, H.Hold, CountOk, Fits;
    var l, l' := s.locals[t], s'.locals[t];
    assert Moved(s, s', t) && l' == l.(at := l'.at);
    if Fits(l) {
      StillReading(l, l', e);
    }
  }

  lemma WriteCount(s: State, s': State, t: Tid, e: nat)
    requires CanWork(s, t) && s' == Work(s, t)
    requires (s.locals[t].at.LinkCas? || s.locals[t].at.LinkStore? || s.locals[t].at.MarkCas?)
    ensures Moved(s, s', t)
    ensures Fits(s.locals[t]) && CountOk(s.locals[t], e) ==> CountOk(s'.locals[t], if Changes(s, t) then e + 1 else e)
  {
    hide H.SetSlot, H.Hold;
  }

  lemma EndCount(s: State, s': State, t: Tid, e: nat)
    requires CanWork(s, t) && s' == Work(s, t)
    requires (s.locals[t].at.ClearSlot? || s.locals[t].at.FreeOwn? || s.locals[t].at.RetireOwn?
             || s.locals[t].at.SubRefs?)
    ensures Moved(s, s', t)
    ensures Fits(s.locals[t]) && CountOk(s.locals[t], e) && (s.locals[t].at.SubRefs? ==> s.locals[t].op.Insert?) ==>
              CountOk(s'.locals[t], e) && !Changes(s, t)
  {
    hide H.SetSlot, H.Hold, H.RetireNode;
  }

  lemma WorkCount(s: State, s': State, t: Tid, e: nat)
    requires CanWork(s, t) && s' == Work(s, t) && !Between(s.locals[t].at) && !s.locals[t].at.NewNode?
    requires !s.locals[t].at.Tower?
    ensures Moved(s, s', t)
    ensures var l := s.locals[t];
            Fits(l) && (l.at.SubRefs? || l.at.ReadHeight? ==> l.op.Insert?) && CountOk(l, e) ==>
              CountOk(s'.locals[t], if Changes(s, t) then e + 1 else e)
  {
    hide CountOk, Changes, Fits, Moved;
    var at := s.locals[t].at;
    hide Work, CanWork;
    if NextAt(at) {
      NextCount(s, s', t, e);
    } else if HopAt(at) {
      HopCount(s, s', t, e);
    } else if FindAt(at) {
      FindCount(s, s', t, e);
    } else if at.FirstCheck? {
      FirstCheckCount(s, s', t, e);
    } else if ReadAt(at) {
      ReadCount(s, s', t, e);
    } else if at.LinkCas? || at.LinkStore? || at.MarkCas? {
      WriteCount(s, s', t, e);
    } else {
      EndCount(s, s', t, e);
    }
  }

  // ---------------------------------------------------------------- the witness of a call

  /** The witness of a call that has just begun. */
  ghost function Begin(s: State): Seen
    requires Inv(s)
    reads {}
  {
    Seen({Entries(s)}, {Front(s.heap, s.head)}, false, 0)
  }

  /** The witness of u's call after a step of t. */
  ghost function Observe(w: Seen, s: State, s': State, t: Tid, u: Tid): Seen
    requires Inv(s') && u in s.locals && u in s'.locals
    reads {}
  {
    if s'.locals[u].calls != s.locals[u].calls then Begin(s')
    else
      var effects := if u == t && Changes(s, t) then w.effects + 1 else w.effects;
      Seen(w.maps + {Entries(s')}, w.fronts + {Front(s'.heap, s'.head)}, w.unlinked || (u == t && Unlinks(s, t)),
           effects)
  }

  ghost predicate Witnessed(s: State, u: Tid, w: Seen)
    requires Inv(s)
    reads {}
  {
    Traced(s, u, w) && Entries(s) in w.maps && Front(s.heap, s.head) in w.fronts && CountOk(s.locals[u], w.effects)
  }

  /** t's own access inside its call. */
  lemma WorkWitness(s: State, s': State, t: Tid, w: Seen)
    requires CanWork(s, t) && s' == Work(s, t) && !Between(s.locals[t].at) && !s.locals[t].at.NewNode?
    requires !s.locals[t].at.Tower?
    requires Turn(s, t) && Inv(s) && Inv(s') && Witnessed(s, t, w)
    ensures t in s'.locals && Witnessed(s', t, Observe(w, s, s', t, t))
  {
    hide Inv, Turn, CanWork, Work, Entries, TraceOk, CountOk, Unlinks;
    TurnCount(s, t);
    WorkCount(s, s', t, w.effects);
    var w1 := w.(unlinked := w.unlinked || Unlinks(s, t));
    var w2 := Observe(w, s, s', t, t);
    TraceGrows(s.heap, s.head, s.locals[t], w, w1);
    assert Watching(s, t, w1);
    WorkTrace(s, s', t, w1);
    TraceGrows(s'.heap, s'.head, s'.locals[t], w1, w2);
  }

  /** mkNode, and leaving the index loop. */
  lemma QuietWitness(s: State, s': State, t: Tid, w: Seen)
    requires t in s.locals && (s.locals[t].at.NewNode? || s.locals[t].at.Tower?) && s.locals[t].op.Insert? && Turn(s, t)
    requires Moved(s, s', t) && s'.locals[t].helping == s.locals[t].helping && s'.locals[t].won == s.locals[t].won
    requires if s.locals[t].at.NewNode? then s'.locals[t].at.Protect?
             else s'.locals[t].at.SubRefs? || s'.locals[t].at == ClearSlot(0, 3, true, 0)
    requires Inv(s) && Inv(s') && Witnessed(s, t, w)
    ensures t in s'.locals && Witnessed(s', t, Observe(w, s, s', t, t))
  {
    hide Inv, Entries, TraceOk, Turn;
    NewNodeTrace(s, s', t, w);
    TraceGrows(s'.heap, s'.head, s'.locals[t], w, Observe(w, s, s', t, t));
  }

  lemma InvokeWitness(s: State, s': State, t: Tid, op: Op, w: Seen)
    requires t in s.locals && s' == Invoke(s, t, op) && Inv(s) && Inv(s')
    ensures t in s'.locals && Witnessed(s', t, Observe(w, s, s', t, t))
  {
    hide Inv, Entries;
  }

  lemma ReclaimHeapStep(s: State, t: Tid, x: Tid)
    requires Inv(s) && t in s.locals && t in s.smr.pcs && H.PcOk(s.smr, s.smr.pcs[t]) && H.Slots(s.smr)
    ensures HeapStep(s, DoReclaim(s, t), x)
  {
    hide Inv, H.Inv, ListOk, SameSlots, PcStep, SmrStep;
    InvParts(s, t);
    ReclaimParts(s, t);
  }

  lemma StillKilled(s: State, s': State, t: Tid)
    requires Inv(s) && Next(s, s', t) && Inv(s')
    ensures s'.head == s.head && (Kills(s, t) ==> s.locals[t].op.Erase? && s.locals[t].op.key !in Entries(s'))
  {
    hide Inv, Next, Entries;
    StepLinearizes(s, s', t);
  }

  /** A step of t, seen by a thread u that it does not move; x is whom u takes the step to be by. */
  lemma BystanderWitness(s: State, s': State, t: Tid, x: Tid, u: Tid, w: Seen)
    requires Inv(s) && Next(s, s', t) && HeapStep(s, s', x) && u != x && u in s.locals && u in s.smr.pcs
    requires u in s'.locals && s'.locals[u] == s.locals[u] && Inv(s') && Witnessed(s, u, w)
    requires u == t ==> !Unlinks(s, t) && !Changes(s, t)
    ensures Witnessed(s', u, Observe(w, s, s', t, u))
  {
    hide Inv, Next, Entries, TraceOk, HeapStep, CountOk, Effect, Unlinks, Changes;
    var w' := Observe(w, s, s', t, u);
    TraceGrows(s.heap, s.head, s.locals[u], w, w');
    NextEffect(s, s', t);
    StillKilled(s, s', t);
    OthersTrace(s, s', t, x, u, w');
  }

  lemma OwnWitness(s: State, s': State, t: Tid, w: Seen)
    requires Inv(s) && Next(s, s', t) && Inv(s') && Witnessed(s, t, w)
    ensures t in s'.locals && Witnessed(s', t, Observe(w, s, s', t, t))
  {
    hide Inv, Entries, TraceOk, Turn, CountOk, Work, H.PcOk, H.Slots, SmrStep, H.RecOf, H.SetSlot;
    if s.smr.pcs[t].Ready? && !Between(s.locals[t].at) {
      TurnOf(s, t);
      NewNodeIsInsert(s, t);
      TurnFits(s, t);
      if s.locals[t].at.NewNode? {
        var a :| a != 0 && a !in s.heap && s' == DoNewNode(s, t, a);
        QuietWitness(s, s', t, w);
      } else if s.locals[t].at.Tower? {
        var top := TowerLeaves(s, s', t);
        QuietWitness(s, s', t, w);
      } else {
        hide CanWork;
        WorkWitness(s, s', t, w);
      }
    } else if s' == DoReclaim(s, t) {
      ReclaimHeapStep(s, t, t + 1);
      hide Next;
      BystanderWitness(s, s', t, t + 1, t, w);
    } else {
      var op :| OpOk(op) && s' == Invoke(s, t, op);
      InvokeWitness(s, s', t, op, w);
    }
  }

  /** A step moves only its own thread, and a call keeps its operation until the next call. */
  lemma OthersUnmoved(s: State, s': State, t: Tid)
    requires Next(s, s', t)
    ensures s'.locals.Keys == s.locals.Keys
    ensures forall u :: u in s.locals && u != t ==> s'.locals[u] == s.locals[u]
    ensures s'.locals[t].calls == s.locals[t].calls ==> s'.locals[t].op == s.locals[t].op
    ensures s'.locals[t].calls == s.locals[t].calls || s'.locals[t].calls == s.locals[t].calls + 1
  {
    hide Work, H.PcOk, H.Slots, SmrStep, H.SetSlot;
    var at := s.locals[t].at;
    if s.smr.pcs[t].Ready? && !Between(at) && !(at.NewNode? && s.locals[t].op.Insert?) && !at.Tower? {
      hide CanWork;
      if at.NewNode? {
        assert s' == s by { WorkStays(s, t); }
      } else {
        WorkCount(s, s', t, 0);
      }
    } else if s.smr.pcs[t].Ready? && at.Tower? {
      TowerUnmoved(s, s', t);
    }
  }

  lemma TowerUnmoved(s: State, s': State, t: Tid)
    requires t in s.locals && s.locals[t].at.Tower? && TowerNext(s, s', t)
    ensures OpenStep(s, s', t)
  {
    hide HasRecord, H.SetSlot;
  }

  lemma WorkStays(s: State, t: Tid)
    requires CanWork(s, t) && s.locals[t].at.NewNode?
    ensures Work(s, t) == s
  {
  }

  /** The witness of any thread stays true of it, whoever takes the step. */
  lemma StepWitness(s: State, s': State, t: Tid, u: Tid, w: Seen)
    requires Inv(s) && Next(s, s', t) && Inv(s') && u in s.locals && Witnessed(s, u, w)
    ensures u in s'.locals && Witnessed(s', u, Observe(w, s, s', t, u))
  {
    hide Inv, Next, Witnessed;
    OthersUnmoved(s, s', t);
    if u == t {
      OwnWitness(s, s', t, w);
    } else {
      NextEffect(s, s', t);
      assert u in s.smr.pcs by { InvParts(s, u); }
      BystanderWitness(s, s', t, t, u, w);
    }
  }
}
