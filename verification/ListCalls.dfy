/**
 * Linearizability of the list's operations over whole runs: a call that reports an
 * update made it at exactly one of its steps, and every other answer was right at
 * some instant between the call and its return.
 */
module ListCalls {
  import opened Words
  import H = HazardPointers
  import opened ListMap
  import opened ListInv
  import opened ListEffects
  import opened ListTrace
  import opened ListWitness
  import opened ListRuns

  /** u is a thread of the run, every state of which satisfies the invariant. */
  ghost predicate Followed(r: Run, u: Tid)
    reads {}
  {
    && |r.states| == |r.actors| + 1 && AllInv(r)
    && (forall i {:trigger r.states[i].locals} :: 0 <= i < |r.states| ==> u in r.states[i].locals)
  }

  /** The witness of the call u is in (or was last in) at state j. */
  ghost function WitnessOf(r: Run, u: Tid, j: nat): Seen
    requires Followed(r, u) && j < |r.states|
    reads {}
  {
    if j == 0 then Begin(r.states[0])
    else Observe(WitnessOf(r, u, j - 1), r.states[j - 1], r.states[j], r.actors[j - 1], u)
  }

  /** From state i to state j, u is in one and the same call. */
  ghost predicate SameCall(r: Run, u: Tid, i: nat, j: nat)
    reads {}
  {
    && i <= j < |r.states| && u in r.states[j].locals
    && (forall m {:trigger r.states[m].locals} :: i <= m <= j ==>
          && u in r.states[m].locals
          && r.states[m].locals[u].calls == r.states[j].locals[u].calls
          && r.states[m].locals[u].op == r.states[j].locals[u].op)
  }

  lemma SameCallGrows(r: Run, u: Tid, i: nat, j: nat)
    requires SameCall(r, u, i, j) && j + 1 < |r.states| && u in r.states[j + 1].locals
    requires r.states[j + 1].locals[u].calls == r.states[j].locals[u].calls
    requires r.states[j + 1].locals[u].op == r.states[j].locals[u].op
    ensures SameCall(r, u, i, j + 1)
  {
  }

  lemma RunFollowed(r: Run, u: Tid, j: nat)
    requires IsRun(r) && j < |r.states| && u in r.states[j].locals
    ensures Followed(r, u)
  {
    RunInv(r);
  }

  lemma {:induction false} WitnessOk(r: Run, u: Tid, j: nat)
    requires IsRun(r) && Followed(r, u) && j < |r.states|
    ensures Inv(r.states[j]) && Witnessed(r.states[j], u, WitnessOf(r, u, j))
  {
    hide Inv, Next, Entries, Observe, Begin;
    assert Inv(r.states[j]);
    if j == 0 {
      InitWitness(r.states[0], u);
    } else {
      WitnessOk(r, u, j - 1);
      StepOf(r, j - 1);
      hide IsRun, Witnessed;
      StepWitness(r.states[j - 1], r.states[j], r.actors[j - 1], u, WitnessOf(r, u, j - 1));
    }
  }

  lemma InitWitness(s: State, u: Tid)
    requires Init(s) && Inv(s) && u in s.locals
    ensures Witnessed(s, u, Begin(s))
  {
    hide Inv, Entries;
  }

  // ---------------------------------------------------------------- from witness to instants

  lemma CallStep(r: Run, u: Tid, j: nat)
    requires IsRun(r) && Followed(r, u) && 0 < j < |r.states|
    requires r.states[j].locals[u].calls == r.states[j - 1].locals[u].calls
    ensures r.states[j].locals[u].op == r.states[j - 1].locals[u].op
  {
    hide IsRun, AllInv, Next;
    StepOf(r, j - 1);
    OthersUnmoved(r.states[j - 1], r.states[j], r.actors[j - 1]);
  }

  lemma {:induction false} MapAt(r: Run, u: Tid, j: nat, m: map<int, int>) returns (i: nat)
    requires IsRun(r) && Followed(r, u) && j < |r.states| && m in WitnessOf(r, u, j).maps
    ensures SameCall(r, u, i, j) && Inv(r.states[i]) && Entries(r.states[i]) == m
  {
    hide Inv, IsRun, Entries;
    assert Inv(r.states[j]);
    if m == Entries(r.states[j]) {
      i := j;
    } else {
      i := MapAt(r, u, j - 1, m);
      CallStep(r, u, j);
      SameCallGrows(r, u, i, j - 1);
    }
  }

  lemma {:induction false} FrontAt(r: Run, u: Tid, j: nat, front: Option<int>) returns (i: nat)
    requires IsRun(r) && Followed(r, u) && j < |r.states| && front in WitnessOf(r, u, j).fronts
    ensures SameCall(r, u, i, j) && Inv(r.states[i]) && Front(r.states[i].heap, r.states[i].head) == front
  {
    hide Inv, IsRun, Entries, Front;
    assert Inv(r.states[j]);
    if front == Front(r.states[j].heap, r.states[j].head) {
      i := j;
    } else {
      i := FrontAt(r, u, j - 1, front);
      CallStep(r, u, j);
      SameCallGrows(r, u, i, j - 1);
    }
  }

  lemma {:induction false} ChangeAt(r: Run, u: Tid, j: nat) returns (i: nat)
    requires IsRun(r) && Followed(r, u) && j < |r.states| && WitnessOf(r, u, j).effects > 0
    ensures i < j && SameCall(r, u, i, j) && r.actors[i] == u && Changes(r.states[i], u)
  {
    hide Inv, IsRun, Entries, Changes;
    assert Inv(r.states[j]);
    CallStep(r, u, j);
    if r.actors[j - 1] == u && Changes(r.states[j - 1], u) {
      i := j - 1;
    } else {
      i := ChangeAt(r, u, j - 1);
      SameCallGrows(r, u, i, j - 1);
    }
  }

  lemma {:induction false} UnlinkAt(r: Run, u: Tid, j: nat) returns (i: nat)
    requires IsRun(r) && Followed(r, u) && j < |r.states| && WitnessOf(r, u, j).unlinked
    ensures i < j && SameCall(r, u, i, j) && r.actors[i] == u && Unlinks(r.states[i], u)
  {
    hide Inv, IsRun, Entries, Unlinks;
    assert Inv(r.states[j]);
    CallStep(r, u, j);
    if r.actors[j - 1] == u && Unlinks(r.states[j - 1], u) {
      i := j - 1;
    } else {
      i := UnlinkAt(r, u, j - 1);
      SameCallGrows(r, u, i, j - 1);
    }
  }

  /** Each change of the call is counted. */
  lemma {:induction false} ChangesCounted(r: Run, u: Tid, i: nat, j: nat)
    requires Followed(r, u) && i < j && SameCall(r, u, i, j) && r.actors[i] == u && Changes(r.states[i], u)
    ensures WitnessOf(r, u, j).effects >= WitnessOf(r, u, i).effects + 1
    decreases j
  {
    hide Inv, Entries, Changes;
    assert Inv(r.states[j]);
    assert r.states[j - 1].locals[u].calls == r.states[j].locals[u].calls;
    if i < j - 1 {
      assert SameCall(r, u, i, j - 1);
      ChangesCounted(r, u, i, j - 1);
    }
  }

  // ---------------------------------------------------------------- the theorems

  lemma AnswerSeen(r: Run, u: Tid, j: nat)
    requires IsRun(r) && j < |r.states| && u in r.states[j].locals && r.states[j].locals[u].at.Returned?
    ensures Followed(r, u)
    ensures var l := r.states[j].locals[u];
            && AnswerOk(l.op, l.at.result, l.at.out, WitnessOf(r, u, j))
            && CountOk(l, WitnessOf(r, u, j).effects)
  {
    RunFollowed(r, u, j);
    hide Inv, IsRun, Entries;
    WitnessOk(r, u, j);
  }

  /**
   * What a successful update did at its step i: an insertion where the key was absent, a removal where it was
   * present.
   */
  ghost predicate UpdatedAt(r: Run, u: Tid, op: Op, i: nat)
    reads {}
  {
    && i + 1 < |r.states| && Inv(r.states[i]) && Inv(r.states[i + 1])
    && var m, m' := Entries(r.states[i]), Entries(r.states[i + 1]);
       match op
       case Insert(k, v, _) => k !in m && m' == m[k := v]
       case Erase(k) => k in m && m' == m - {k}
       case _ => false
  }

  lemma ChangeIsUpdate(r: Run, u: Tid, i: nat)
    requires IsRun(r) && Followed(r, u) && i < |r.actors| && r.actors[i] == u && Changes(r.states[i], u)
    ensures UpdatedAt(r, u, r.states[i].locals[u].op, i)
  {
    assert Inv(r.states[i]) && Inv(r.states[i + 1]);
    hide Inv, Next, Entries, Publishes, Kills;
    StepOf(r, i);
    StepLinearizes(r.states[i], r.states[i + 1], u);
  }

  /**
   * Every insert and erase that returns true takes effect at exactly one step: its
   * own, between call and return, and no other step of the call changes the map.
   */
  lemma UpdateTakesEffectOnce(r: Run, u: Tid, j: nat) returns (i: nat)
    requires IsRun(r) && j < |r.states| && u in r.states[j].locals && r.states[j].locals[u].at.Returned?
    requires r.states[j].locals[u].at.result && (r.states[j].locals[u].op.Insert? || r.states[j].locals[u].op.Erase?)
    ensures i < j && SameCall(r, u, i, j) && r.actors[i] == u && UpdatedAt(r, u, r.states[j].locals[u].op, i)
    ensures forall i' {:trigger SameCall(r, u, i', j)} ::
              0 <= i' < j && SameCall(r, u, i', j) && r.actors[i'] == u && Changes(r.states[i'], u) ==> i' == i
  {
    hide Inv, IsRun, Entries, UpdatedAt, Changes, AllInv;
    AnswerSeen(r, u, j);
    i := ChangeAt(r, u, j);
    ChangeIsUpdate(r, u, i);
    forall i' | 0 <= i' < j && SameCall(r, u, i', j) && r.actors[i'] == u && Changes(r.states[i'], u) ensures i' == i {
      if i' != i {
        OnlyOneChange(r, u, if i < i' then i else i', if i < i' then i' else i, j);
      }
    }
  }

  lemma OnlyOneChange(r: Run, u: Tid, i: nat, i': nat, j: nat)
    requires Followed(r, u) && i < i' < j && SameCall(r, u, i, j) && SameCall(r, u, i', j)
    requires r.actors[i] == u && Changes(r.states[i], u) && r.actors[i'] == u && Changes(r.states[i'], u)
    ensures WitnessOf(r, u, j).effects >= 2
  {
    hide Inv, Entries, Changes, AllInv;
    assert SameCall(r, u, i, i');
    ChangesCounted(r, u, i, i');
    ChangesCounted(r, u, i', j);
  }

  /** Every other call leaves the map alone at each of its own steps. */
  lemma OthersHaveNoEffect(r: Run, u: Tid, i: nat, j: nat)
    requires IsRun(r) && j < |r.states| && u in r.states[j].locals && r.states[j].locals[u].at.Returned?
    requires r.states[j].locals[u].op.Lookup? || r.states[j].locals[u].op.First? || !r.states[j].locals[u].at.result
    requires i < j && SameCall(r, u, i, j) && r.actors[i] == u
    ensures Inv(r.states[i]) && Inv(r.states[i + 1]) && Entries(r.states[i + 1]) == Entries(r.states[i])
  {
    hide Inv, IsRun, Entries, Publishes, Kills;
    AnswerSeen(r, u, j);
    assert Inv(r.states[i]) && Inv(r.states[i + 1]);
    if Changes(r.states[i], u) {
      ChangesCounted(r, u, i, j);
    }
    hide AllInv, Next;
    StepOf(r, i);
    StepLinearizes(r.states[i], r.states[i + 1], u);
  }

  /** An answer "present" was true at an instant of the call, with the value the lookup returned. */
  lemma PositiveAnswer(r: Run, u: Tid, j: nat) returns (i: nat)
    requires IsRun(r) && j < |r.states| && u in r.states[j].locals && r.states[j].locals[u].at.Returned?
    requires var l := r.states[j].locals[u]; if l.op.Insert? then !l.at.result else l.op.Lookup? && l.at.result
    ensures SameCall(r, u, i, j) && Inv(r.states[i]) && KeyOf(r.states[j].locals[u].op) in Entries(r.states[i])
    ensures r.states[j].locals[u].op.Lookup? ==>
              Entries(r.states[i])[KeyOf(r.states[j].locals[u].op)] == r.states[j].locals[u].at.out
  {
    hide Inv, IsRun, Entries, AllInv;
    AnswerSeen(r, u, j);
    var l, w := r.states[j].locals[u], WitnessOf(r, u, j);
    var m :| m in w.maps && KeyOf(l.op) in m && (l.op.Lookup? ==> m[KeyOf(l.op)] == l.at.out);
    i := MapAt(r, u, j, m);
  }

  /**
   * An answer "absent" was true at an instant of the call, unless the call left find
   * by unlinking a dead node. An erase that lost the race to mark is included: the
   * key was gone once the winner had marked.
   */
  lemma NegativeAnswer(r: Run, u: Tid, j: nat) returns (i: nat, unlinked: bool)
    requires IsRun(r) && j < |r.states| && u in r.states[j].locals && r.states[j].locals[u].at.Returned?
    requires var l := r.states[j].locals[u]; (l.op.Erase? || l.op.Lookup?) && !l.at.result
    ensures SameCall(r, u, i, j) && Inv(r.states[i])
    ensures if unlinked then i < j && r.actors[i] == u && Unlinks(r.states[i], u)
            else KeyOf(r.states[j].locals[u].op) !in Entries(r.states[i])
  {
    hide Inv, IsRun, Entries, AllInv, Unlinks;
    AnswerSeen(r, u, j);
    var l, w := r.states[j].locals[u], WitnessOf(r, u, j);
    unlinked := w.unlinked;
    if unlinked {
      i := UnlinkAt(r, u, j);
      assert Inv(r.states[i]) by { WitnessOk(r, u, i); }
    } else {
      var m :| m in w.maps && KeyOf(l.op) !in m;
      i := MapAt(r, u, j, m);
    }
  }

  /**
   * What firstKey answered: at an instant of the call the head's link named a linked node with
   * that key, and it was the least of the keys unless that node was dead, in which case no key
   * of the map was as small. With the link null, and the map empty, it answered the default key.
   */
  lemma FirstAnswer(r: Run, u: Tid, j: nat) returns (i: nat)
    requires IsRun(r) && j < |r.states| && u in r.states[j].locals && r.states[j].locals[u].at.Returned?
    requires r.states[j].locals[u].op.First?
    ensures SameCall(r, u, i, j) && Inv(r.states[i])
    ensures var s, at := r.states[i], r.states[j].locals[u].at;
            var first := s.heap[s.head].next.ptr;
            if at.result then
              && IsLinked(s.heap, first) && first != s.head && s.heap[first].key == at.out
              && (forall k :: k in Entries(s) ==> at.out <= k)
              && (at.out in Entries(s) <==> !s.heap[first].next.tag)
            else at.out == 0 && first == 0 && Entries(s) == map[]
  {
    hide Inv, IsRun, Entries, AllInv, Front;
    AnswerSeen(r, u, j);
    var at := r.states[j].locals[u].at;
    i := FrontAt(r, u, j, if at.result then Some(at.out) else None);
    FrontIs(r.states[i]);
  }

  lemma FrontIs(s: State)
    requires Inv(s)
    ensures s.head in s.heap
    ensures var c := s.heap[s.head].next.ptr;
            if c == 0 then Front(s.heap, s.head) == None && Entries(s) == map[]
            else
              && IsLinked(s.heap, c) && c != s.head && Front(s.heap, s.head) == Some(s.heap[c].key)
              && (forall k :: k in Entries(s) ==> s.heap[c].key <= k)
              && (s.heap[c].key in Entries(s) <==> !s.heap[c].next.tag)
  {
    assert ListOk(s.heap, s.head);
    hide Inv, ListOk;
    HeadLeads(s.heap, s.head);
    FirstIsLeast(s.heap, s.head);
  }
}
