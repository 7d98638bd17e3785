/** What one thread's step may do to the others, and that their local facts survive it. */
module ListFrame {
  import opened Words
  import H = HazardPointers
  import opened ListMap
  import opened ListInv

  /** What a step of t may do to a node that stays allocated. */
  ghost predicate NodeStep(n: Node, n': Node, t: Tid)
    reads {}
  {
    && n'.key == n.key && n'.value == n.value && n'.height == n.height
    && (!n.stage.Private? ==> !n'.stage.Private?)
    && (n.next.tag ==> n'.next == n.next)
    && ((n.stage.Unlinking? || n.stage.Doomed?) && n.stage.who != t ==> n'.stage == n.stage)
    && (n.inserter.Some? && n.inserter.value != t ==> n'.inserter == n.inserter && (n.stage.Private? ==> n' == n))
  }

  /** A node may disappear only if it is retired and held by nobody, or is t's own unpublished node. */
  ghost predicate MayGo(s: State, a: Addr, t: Tid)
    requires a in s.heap
    reads {}
  {
    || (s.heap[a].stage.Retired? && Unheld(s.smr.recs, a))
    || (s.heap[a].stage.Private? && s.heap[a].inserter == Some(t))
  }

  ghost predicate HeapStep(s: State, s': State, t: Tid)
    reads {}
  {
    && s'.head == s.head && s'.tower == s.tower
    && (forall a {:trigger s'.heap[a]} :: a in s.heap && a in s'.heap ==> NodeStep(s.heap[a], s'.heap[a], t))
    && (forall a {:trigger a in s'.heap} :: a in s.heap && a !in s'.heap ==> MayGo(s, a, t))
  }

  ghost predicate Holds(rec: H.Record, a: Addr)
    reads {}
  {
    exists k {:trigger k in rec.safe} :: k in rec.safe && H.Protects(rec, k, a)
  }

  ghost predicate RecsStep(s: State, s': State, t: Tid)
    reads {}
  {
    && |s.smr.recs| <= |s'.smr.recs|
    && (forall q {:trigger s'.smr.recs[q]} :: 0 <= q < |s.smr.recs| && s.smr.recs[q].owner != Some(t) ==>
          s'.smr.recs[q].slots == s.smr.recs[q].slots && s'.smr.recs[q].safe == s.smr.recs[q].safe)
    && (forall q, k {:trigger k in s'.smr.recs[q].safe} ::
          0 <= q < |s'.smr.recs| && k in s'.smr.recs[q].safe && k < |s'.smr.recs[q].slots| ==>
            var a := s'.smr.recs[q].slots[k].ptr;
            || (q < |s.smr.recs| && Holds(s.smr.recs[q], a))
            || (a in s.heap && (!s.heap[a].stage.Private? || s.heap[a].inserter == Some(t))))
  }

  ghost predicate ThreadsStep(s: State, s': State, t: Tid)
    reads {}
  {
    && s'.locals.Keys == s.locals.Keys && s'.smr.pcs.Keys == s.smr.pcs.Keys
    && (forall u {:trigger s'.locals[u]} :: u in s.locals && u != t ==> s'.locals[u] == s.locals[u])
    && (forall u {:trigger s'.smr.pcs[u]} :: u in s.smr.pcs && u != t ==> s'.smr.pcs[u] == s.smr.pcs[u])
  }

  ghost predicate Interf(s: State, s': State, t: Tid)
    reads {}
  {
    HeapStep(s, s', t) && RecsStep(s, s', t) && ThreadsStep(s, s', t)
  }

  // ---------------------------------------------------------------- one fact at a time

  /** A protected node survives a step of any other thread. */
  lemma HeldStays(s: State, s': State, t: Tid, q: nat, k: nat, a: Addr)
    requires HeapStep(s, s', t) && HeldAllocated(s) && H.Owners(s.smr)
    requires q < |s.smr.recs| && s.smr.recs[q].owner != Some(t) && H.Protects(s.smr.recs[q], k, a)
    ensures a in s.heap && a in s'.heap && NodeStep(s.heap[a], s'.heap[a], t)
  {
    assert k in s.smr.recs[q].safe;
    assert t in s.smr.pcs ==> !H.Owns(s.smr.pcs[t], q);
    assert a in s'.heap;
  }

  /** Another thread's unpublished node is not touched. */
  lemma MineStays(s: State, s': State, t: Tid, u: Tid, l: Local)
    requires HeapStep(s, s', t) && u != t && MineOk(s.heap, s.head, u, l)
    ensures MineOk(s'.heap, s'.head, u, l) && s'.heap[l.node] == s.heap[l.node]
  {
    var a := l.node;
    assert a in s'.heap;
    assert NodeStep(s.heap[a], s'.heap[a], t);
  }

  lemma StageStays(s: State, s': State, t: Tid, u: Tid, a: Addr)
    requires HeapStep(s, s', t) && u != t && a in s.heap
    requires s.heap[a].stage == Unlinking(u) || s.heap[a].stage == Doomed(u)
    ensures a in s'.heap && s'.heap[a].stage == s.heap[a].stage
  {
    assert a in s'.heap;
    assert NodeStep(s.heap[a], s'.heap[a], t);
  }

  /** The facts about one record that a step of t keeps for its owner. */
  ghost predicate RecKept(s: State, s': State, t: Tid, q: nat)
    reads {}
  {
    && HeapStep(s, s', t) && HeldAllocated(s) && H.Owners(s.smr) && q < |s.smr.recs| <= |s'.smr.recs|
    && s.smr.recs[q].owner != Some(t)
    && s'.smr.recs[q].slots == s.smr.recs[q].slots && s'.smr.recs[q].safe == s.smr.recs[q].safe
  }

  lemma GuardsStay(s: State, s': State, t: Tid, q: nat, k: nat, a: Addr)
    requires RecKept(s, s', t, q) && Guards(s.heap, s.smr.recs[q], k, a)
    ensures Guards(s'.heap, s'.smr.recs[q], k, a)
    ensures a in s'.heap && s'.heap[a].key == s.heap[a].key && s'.heap[a].height == s.heap[a].height
    ensures s.heap[a].next.tag ==> s'.heap[a].next == s.heap[a].next
  {
    HeldStays(s, s', t, q, k, a);
  }

  lemma PrevStays(s: State, s': State, t: Tid, q: nat, prev: Addr, key: int)
    requires RecKept(s, s', t, q) && PrevOk(s.heap, s.head, s.smr.recs[q], prev, key)
    ensures PrevOk(s'.heap, s'.head, s'.smr.recs[q], prev, key)
    ensures prev in s.heap && prev in s'.heap && s'.heap[prev].key == s.heap[prev].key
  {
    GuardsStay(s, s', t, q, 2, prev);
  }

  lemma AfterStays(s: State, s': State, t: Tid, q: nat, k: nat, a: Addr, b: Addr)
    requires RecKept(s, s', t, q) && AfterOk(s.heap, s.head, s.smr.recs[q], k, a, b)
    requires a in s.heap && a in s'.heap && s'.heap[a].key == s.heap[a].key
    ensures AfterOk(s'.heap, s'.head, s'.smr.recs[q], k, a, b)
  {
    GuardsStay(s, s', t, q, k, b);
  }

  lemma PublishedStays(s: State, s': State, t: Tid, u: Tid, q: nat, l: Local)
    requires RecKept(s, s', t, q) && u != t && PublishedOk(s.heap, s.head, s.smr.recs[q], u, l)
    ensures PublishedOk(s'.heap, s'.head, s'.smr.recs[q], u, l)
  {
    GuardsStay(s, s', t, q, 3, l.node);
    assert NodeStep(s.heap[l.node], s'.heap[l.node], t);
  }

  lemma NobodyHolds(s: State, s': State, t: Tid, u: Tid, l: Local)
    requires RecsStep(s, s', t) && u != t && MineOk(s.heap, s.head, u, l) && Unheld(s.smr.recs, l.node)
    ensures Unheld(s'.smr.recs, l.node)
  {
    forall q, k: nat | 0 <= q < |s'.smr.recs| ensures !H.Protects(s'.smr.recs[q], k, l.node) {
      assert q < |s.smr.recs| ==> !Holds(s.smr.recs[q], l.node);
    }
  }

  lemma SeenStays(s: State, s': State, t: Tid, u: Tid, q: nat, l: Local)
    requires RecKept(s, s', t, q) && RecsStep(s, s', t) && u != t
    requires LocOk(s.heap, s.head, s.smr.recs, s.smr.recs[q], u, l)
    ensures SeenOk(s'.heap, s'.smr.recs, s'.smr.recs[q], u, l)
  {
    var cur := CurOf(l.at);
    if cur != 0 {
      GuardsStay(s, s', t, q, 1, cur);
    }
    if l.at.DropRef? || l.at.RetireDead? || l.at.RetireOwn? {
      StageStays(s, s', t, u, l.at.cur);
    }
    if OwnsUnpublished(l) {
      MineStays(s, s', t, u, l);
      if l.at.Protect? || l.at.FreeOwn? {
        NobodyHolds(s, s', t, u, l);
      }
    }
  }

  // ---------------------------------------------------------------- all local facts

  lemma NamesStay(s: State, s': State, t: Tid, u: Tid, q: nat, l: Local)
    requires RecKept(s, s', t, q) && u != t && LocOk(s.heap, s.head, s.smr.recs, s.smr.recs[q], u, l)
    ensures PrevOf(l, s.head) != 0 ==> PrevOk(s'.heap, s'.head, s'.smr.recs[q], PrevOf(l, s.head), KeyOf(l.op))
    ensures CurOf(l.at) != 0 ==> Guards(s'.heap, s'.smr.recs[q], 1, CurOf(l.at)) && KeysOk(s'.heap, l, CurOf(l.at))
    ensures CurOf(l.at) != 0 && PrevOf(l, s.head) != 0 ==>
              AfterOk(s'.heap, s'.head, s'.smr.recs[q], 1, PrevOf(l, s.head), CurOf(l.at))
    ensures NextOf(l.at) != 0 ==>
              AfterOk(s'.heap, s'.head, s'.smr.recs[q], 0,
                      if CurOf(l.at) != 0 then CurOf(l.at) else PrevOf(l, s.head), NextOf(l.at))
  {
    var prev, cur, next := PrevOf(l, s.head), CurOf(l.at), NextOf(l.at);
    if prev != 0 {
      PrevStays(s, s', t, q, prev, KeyOf(l.op));
    }
    if cur != 0 {
      GuardsStay(s, s', t, q, 1, cur);
      if prev != 0 {
        AfterStays(s, s', t, q, 1, prev, cur);
      }
    }
    if next != 0 {
      AfterStays(s, s', t, q, 0, if cur != 0 then cur else prev, next);
    }
  }

  lemma LocStays(s: State, s': State, t: Tid, u: Tid, q: nat, l: Local)
    requires RecKept(s, s', t, q) && RecsStep(s, s', t) && u != t
    requires LocOk(s.heap, s.head, s.smr.recs, s.smr.recs[q], u, l)
    ensures LocOk(s'.heap, s'.head, s'.smr.recs, s'.smr.recs[q], u, l)
  {
    NamesStay(s, s', t, u, q, l);
    SeenStays(s, s', t, u, q, l);
    if OwnsUnpublished(l) {
      MineStays(s, s', t, u, l);
    }
    if l.at.ReadHeight? || l.at.Tower? || l.at.SubRefs? {
      PublishedStays(s, s', t, u, q, l);
    }
  }

  /** Every other thread's facts survive a step of t. */
  lemma LocalStays(s: State, s': State, t: Tid, u: Tid)
    requires Interf(s, s', t) && HeldAllocated(s) && H.Owners(s.smr)
    requires u != t && u in s.locals && u in s.smr.pcs && LocalOk(s, u)
    ensures u in s'.locals && u in s'.smr.pcs && LocalOk(s', u)
  {
    var l := s.locals[u];
    assert s'.locals[u] == l && s'.smr.pcs[u] == s.smr.pcs[u];
    if !Between(l.at) {
      var q := H.RecOf(s.smr.pcs[u]).value;
      assert H.Owns(s.smr.pcs[u], q);
      assert s'.smr.recs[q].slots == s.smr.recs[q].slots;
      LocStays(s, s', t, u, q, l);
    }
  }
}
