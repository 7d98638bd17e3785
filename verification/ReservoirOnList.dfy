/**
 * The reservoir over the concurrent list itself: any number of threads inside update,
 * their calls of insert, firstKey and erase taken one access at a time. It behaves as
 * the reservoir over an atomic map, so the capacity bound holds of the real list.
 */
module ReservoirOnList {
  import opened Words
  import L = ListMap
  import LI = ListInv
  import LE = ListEffects
  import LT = ListTrace
  import LW = ListWitness
  import LR = ListRuns
  import LC = ListCalls
  import R = Reservoir

  /** Where in update a thread is; in the phases named -ing it is inside a call on the list. */
  datatype Phase =
    | Rest
    | Count(p: int, v: int)
    | Fill(p: int, v: int)
    | Filling
    | Peek(p: int, v: int)
    | Peeking(p: int, v: int)
    | Over(p: int, v: int, first: int)
    | Overfilling(first: int)
    | Owe(first: int)
    | Erasing(first: int)
    | Again
    | Asking

  datatype Joint = Joint(list: L.State, count: nat, phases: map<Tid, Phase>)

  predicate Inside(phase: Phase)
    reads {}
  {
    phase.Filling? || phase.Peeking? || phase.Overfilling? || phase.Erasing? || phase.Asking?
  }

  // ---------------------------------------------------------------- steps

  /** The call a thread is about to make, with the height drawn for insert, and where that takes it. */
  function CallOf(phase: Phase, height: nat): Option<(L.Op, Phase)>
    reads {}
  {
    match phase
    case Fill(p, v) => Some((L.Insert(p, v, height), Filling))
    case Peek(p, v) => Some((L.First, Peeking(p, v)))
    case Over(p, v, first) => Some((L.Insert(p, v, height), Overfilling(first)))
    case Owe(first) => Some((L.Erase(first), Erasing(first)))
    case Again => Some((L.First, Asking))
    case _ => None
  }

  /** What the thread does with the call's answer. */
  function After(phase: Phase, result: bool, out: int): Phase
    requires Inside(phase)
    reads {}
  {
    match phase
    case Filling => Rest
    case Peeking(p, v) => if out < p then Over(p, v, out) else Rest
    case Overfilling(first) => if result then Owe(first) else Rest
    case Erasing(first) => if result then Rest else Again
    case Asking => Owe(out)
  }

  function Move(j: Joint, t: Tid, phase: Phase): Joint
    reads {}
  {
    j.(phases := j.phases[t := phase])
  }

  /** The list's machine takes a step of t that begins no call. */
  ghost predicate Works(j: Joint, j': Joint, t: Tid)
    reads {}
  {
    && LI.Next(j.list, j'.list, t) && j' == j.(list := j'.list)
    && j'.list.locals.Keys == j.list.locals.Keys && j'.list.locals[t].calls == j.list.locals[t].calls
  }

  ghost predicate Calls(j: Joint, j': Joint, t: Tid)
    requires t in j.phases && t in j.list.locals
    reads {}
  {
    exists height: nat {:trigger CallOf(j.phases[t], height)} ::
      && CallOf(j.phases[t], height).Some? && LI.OpOk(CallOf(j.phases[t], height).value.0)
      && LI.Between(j.list.locals[t].at) && t in j.list.smr.pcs && j.list.smr.pcs[t].Ready?
      && LI.Next(j.list, j'.list, t)
      && j'.list == L.Invoke(j.list, t, CallOf(j.phases[t], height).value.0)
      && j' == Move(j, t, CallOf(j.phases[t], height).value.1).(list := j'.list)
  }

  predicate Returns(j: Joint, j': Joint, t: Tid)
    requires t in j.phases && t in j.list.locals
    reads {}
  {
    var at := j.list.locals[t].at;
    Inside(j.phases[t]) && at.Returned? && j' == Move(j, t, After(j.phases[t], at.result, at.out))
  }

  /** update begins with a priority, or counts itself. */
  ghost predicate Counts(j: Joint, j': Joint, t: Tid)
    requires t in j.phases
    reads {}
  {
    match j.phases[t]
    case Rest => exists p, v :: j' == Move(j, t, Count(p, v))
    case Count(p, v) => j' == Move(j, t, if j.count < R.SIZE then Fill(p, v) else Peek(p, v)).(count := j.count + 1)
    case _ => false
  }

  ghost predicate Next(j: Joint, j': Joint, t: Tid)
    reads {}
  {
    t in j.phases && t in j.list.locals && (Works(j, j', t) || Calls(j, j', t) || Returns(j, j', t) || Counts(j, j', t))
  }

  ghost predicate Init(j: Joint)
    reads {}
  {
    && LI.Init(j.list) && j.count == 0 && j.phases.Keys == j.list.locals.Keys
    && forall t :: t in j.phases ==> j.phases[t].Rest?
  }

  // ---------------------------------------------------------------- as the reservoir sees it

  /** The same map, with its keys as priorities. */
  function Reals(m: map<int, int>): map<real, int>
    reads {}
  {
    map k: int | k in m :: (k as real) := m[k]
  }

  /** Where the thread is once its call, if it has taken effect, counts as over. */
  function View(phase: Phase, l: L.Local): R.Pc
    reads {}
  {
    match phase
    case Rest => R.Idle
    case Count(p, v) => R.Count(p as real, v)
    case Fill(p, v) => R.Fill(p as real, v)
    case Filling => if LW.Done(l) || !l.op.Insert? then R.Idle else R.Fill(l.op.key as real, l.op.value)
    case Peek(p, v) => R.Peek(p as real, v)
    case Peeking(p, v) => R.Peek(p as real, v)
    case Over(p, v, first) => R.Over(p as real, v, first as real)
    case Overfilling(first) =>
      if LW.Done(l) then R.Owe(first as real)
      else if l.op.Insert? then R.Over(l.op.key as real, l.op.value, first as real) else R.Idle
    case Owe(first) => R.Owe(first as real)
    case Erasing(first) => if LW.Done(l) then R.Idle else R.Owe(first as real)
    case Again => R.Again
    case Asking => R.Again
  }

  ghost function Abs(j: Joint): R.State
    requires LI.Inv(j.list)
    reads {}
  {
    R.State(Reals(LE.Entries(j.list)), j.count, Views(j))
  }

  function Views(j: Joint): map<Tid, R.Pc>
    reads {}
  {
    map t | t in j.phases && t in j.list.locals :: View(j.phases[t], j.list.locals[t])
  }

  /** A thread's call on the list is the one its phase says. */
  predicate Agrees(phase: Phase, l: L.Local)
    reads {}
  {
    && (!Inside(phase) ==> LI.Between(l.at))
    && (phase.Filling? || phase.Overfilling? ==> l.op.Insert?)
    && (phase.Erasing? ==> l.op.Erase? && l.op.key == phase.first)
    && (phase.Peeking? || phase.Asking? ==> l.op.First?)
  }

  ghost predicate Watched(s: L.State, t: Tid)
    requires LI.Inv(s)
    reads {}
  {
    exists w: LT.Seen :: LW.Witnessed(s, t, w)
  }

  ghost predicate Inv(j: Joint)
    reads {}
  {
    && LI.Inv(j.list) && j.phases.Keys == j.list.locals.Keys
    && (forall t :: t in j.phases ==> Agrees(j.phases[t], j.list.locals[t]) && Watched(j.list, t))
    && R.Inv(Abs(j))
  }

  // ---------------------------------------------------------------- the map under both names

  lemma RealsInsert(m: map<int, int>, k: int, v: int)
    ensures Reals(m[k := v]) == Reals(m)[k as real := v] && (k as real in Reals(m) <==> k in m)
  {
  }

  lemma RealsRemove(m: map<int, int>, k: int)
    ensures Reals(m - {k}) == Reals(m) - {k as real}
  {
  }

  lemma {:induction false} RealsSize(m: map<int, int>)
    ensures |Reals(m)| == |m|
    decreases m.Keys
  {
    if m == map[] {
      assert Reals(m) == map[];
    } else {
      assert (forall k :: k !in m) ==> m == map[];
      var k :| k in m;
      RealsSize(m - {k});
      RealsRemove(m, k);
      RealsInsert(m, k, m[k]);
      R.OneLess(Reals(m), k as real);
      LR.MapShrinks(m, k);
    }
  }

  // ---------------------------------------------------------------- a step of the list

  /** A call has taken effect once it changes the map, and changes it once. */
  lemma DoneStep(s: L.State, s': L.State, t: Tid)
    requires LI.Inv(s) && LI.Next(s, s', t) && LI.Inv(s') && Watched(s, t)
    requires t in s.locals && t in s'.locals && s'.locals[t].calls == s.locals[t].calls
    ensures LW.Done(s'.locals[t]) <==> LW.Done(s.locals[t]) || LW.Changes(s, t)
    ensures LW.Changes(s, t) ==> !LW.Done(s.locals[t])
  {
    hide LI.Inv, LI.Next, LE.Entries, LW.Done, LW.Changes, LT.Traced, LW.Begin;
    var w: LT.Seen :| LW.Witnessed(s, t, w);
    LW.StepWitness(s, s', t, t, w);
  }

  lemma WatchedStays(s: L.State, s': L.State, t: Tid, u: Tid)
    requires LI.Inv(s) && LI.Next(s, s', t) && LI.Inv(s') && u in s.locals && Watched(s, u)
    ensures Watched(s', u)
  {
    hide LI.Inv, LI.Next, LW.Witnessed, LW.Observe;
    var w: LT.Seen :| LW.Witnessed(s, u, w);
    LW.StepWitness(s, s', t, u, w);
    LW.OthersUnmoved(s, s', t);
    assert LW.Witnessed(s', u, LW.Observe(w, s, s', t, u));
  }

  /** Between calls only the record changes. */
  lemma BetweenStays(s: L.State, s': L.State, t: Tid)
    requires LI.Next(s, s', t) && LI.Between(s.locals[t].at) && t in s'.locals
    requires s'.locals[t].calls == s.locals[t].calls
    ensures s'.locals == s.locals
  {
    hide L.SmrStep;
  }

  /** Only t's view changes. */
  lemma ViewsMove(j: Joint, j': Joint, t: Tid)
    requires t in j.phases && t in j.list.locals && j'.phases.Keys == j.phases.Keys
    requires j'.list.locals.Keys == j.list.locals.Keys
    requires forall u :: u in j.phases && u != t ==> j'.phases[u] == j.phases[u]
    requires forall u :: u in j.list.locals && u != t ==> j'.list.locals[u] == j.list.locals[u]
    ensures Views(j') == Views(j)[t := View(j'.phases[t], j'.list.locals[t])]
    ensures t in Views(j) && Views(j)[t] == View(j.phases[t], j.list.locals[t])
  {
    hide View;
  }

  // ---------------------------------------------------------------- each kind of step

  /** In the reservoir's terms the step is one of its steps by t, or none. */
  ghost predicate Follows(r: R.State, r': R.State, t: Tid)
    reads {}
  {
    r' == r || R.Next(r, r', t)
  }

  lemma StepFollows(r: R.State, t: Tid, first: real, hit: bool)
    requires t in r.pcs && !r.pcs[t].Idle?
    ensures Follows(r, R.Step(r, t, first, hit), t)
  {
  }

  /** The publishing CAS of insert is the reservoir's insertion, the winning mark its removal. */
  lemma WorksFollow(j: Joint, j': Joint, t: Tid)
    requires Inv(j) && t in j.phases && Works(j, j', t) && LI.Inv(j'.list)
    ensures Follows(Abs(j), Abs(j'), t)
  {
    var s, s' := j.list, j'.list;
    LE.StepLinearizes(s, s', t);
    LW.OthersUnmoved(s, s', t);
    DoneStep(s, s', t);
    assert Agrees(j.phases[t], s.locals[t]);
    if LW.Changes(s, t) {
      ChangesInside(s, t);
    }
    hide LI.Inv, LI.Next, LE.Entries, LW.Done, LE.Publishes, LE.Kills, R.Inv, R.Next, Watched;
    ViewsMove(j, j', t);
    WorkView(j, j', t);
  }

  lemma ChangesInside(s: L.State, t: Tid)
    requires LW.Changes(s, t)
    ensures t in s.locals && !LI.Between(s.locals[t].at)
  {
  }

  lemma PublishFollows(r: R.State, m: map<int, int>, t: Tid, phase: Phase, l: L.Local, l': L.Local)
    requires t in r.pcs && r.entries == Reals(m) && r.pcs[t] == View(phase, l)
    requires Agrees(phase, l) && Inside(phase) && l'.op == l.op && !LW.Done(l) && LW.Done(l')
    requires l.op.Insert? && l.op.key !in m
    ensures Follows(r, R.State(Reals(m[l.op.key := l.op.value]), r.count, r.pcs[t := View(phase, l')]), t)
  {
    hide LW.Done, Follows;
    RealsInsert(m, l.op.key, l.op.value);
    StepFollows(r, t, 0.0, true);
  }

  lemma KillFollows(r: R.State, m: map<int, int>, t: Tid, phase: Phase, l: L.Local, l': L.Local)
    requires t in r.pcs && r.entries == Reals(m) && r.pcs[t] == View(phase, l)
    requires Agrees(phase, l) && Inside(phase) && l'.op == l.op && !LW.Done(l) && LW.Done(l')
    requires l.op.Erase? && l.op.key in m
    ensures Follows(r, R.State(Reals(m - {l.op.key}), r.count, r.pcs[t := View(phase, l')]), t)
  {
    hide LW.Done, Follows;
    RealsInsert(m, l.op.key, m[l.op.key]);
    assert m[l.op.key := m[l.op.key]] == m;
    RealsRemove(m, l.op.key);
    StepFollows(r, t, 0.0, true);
  }

  lemma SameView(phase: Phase, l: L.Local, l': L.Local)
    requires l'.op == l.op && (LW.Done(l') <==> LW.Done(l))
    ensures View(phase, l') == View(phase, l)
  {
    hide LW.Done;
  }

  lemma WorkView(j: Joint, j': Joint, t: Tid)
    requires LI.Inv(j.list) && LI.Inv(j'.list) && t in j.phases && t in j.list.locals && t in j'.list.locals
    requires j' == j.(list := j'.list) && j'.list.locals[t].op == j.list.locals[t].op
    requires Agrees(j.phases[t], j.list.locals[t]) && (LW.Changes(j.list, t) ==> !LI.Between(j.list.locals[t].at))
    requires LW.Done(j'.list.locals[t]) <==> LW.Done(j.list.locals[t]) || LW.Changes(j.list, t)
    requires LW.Changes(j.list, t) ==> !LW.Done(j.list.locals[t])
    requires LE.Publishes(j.list, t) ==>
               var op := j.list.locals[t].op;
               op.Insert? && op.key !in LE.Entries(j.list)
                   && LE.Entries(j'.list) == LE.Entries(j.list)[op.key := op.value]
    requires LE.Kills(j.list, t) ==>
               var op := j.list.locals[t].op;
               op.Erase? && op.key in LE.Entries(j.list) && LE.Entries(j'.list) == LE.Entries(j.list) - {op.key}
    requires !LW.Changes(j.list, t) ==> LE.Entries(j'.list) == LE.Entries(j.list)
    requires Views(j') == Views(j)[t := View(j.phases[t], j'.list.locals[t])]
    requires t in Views(j) && Views(j)[t] == View(j.phases[t], j.list.locals[t])
    ensures Follows(Abs(j), Abs(j'), t)
  {
    hide LI.Inv, LE.Entries, LW.Done, LE.Publishes, LE.Kills, Views, View, Reals, Follows;
    var m, phase, l, l' := LE.Entries(j.list), j.phases[t], j.list.locals[t], j'.list.locals[t];
    if LE.Publishes(j.list, t) {
      PublishFollows(Abs(j), m, t, phase, l, l');
    } else if LE.Kills(j.list, t) {
      KillFollows(Abs(j), m, t, phase, l, l');
    } else {
      SameView(phase, l, l');
      assert Views(j') == Views(j);
      SameFollows(Abs(j), Abs(j'), t);
    }
  }

  lemma SameFollows(r: R.State, r': R.State, t: Tid)
    requires r' == r
    ensures Follows(r, r', t)
  {
  }

  lemma InvFacts(j: Joint, t: Tid)
    requires Inv(j) && t in j.phases
    ensures LI.Inv(j.list) && t in j.list.locals && Agrees(j.phases[t], j.list.locals[t])
  {
  }

  lemma InvokeSame(s: L.State, s': L.State, t: Tid, op: L.Op)
    requires LI.Inv(s) && LI.Next(s, s', t) && t in s.locals && LI.Between(s.locals[t].at) && s' == L.Invoke(s, t, op)
    ensures LI.Inv(s') && LE.Entries(s') == LE.Entries(s)
  {
    hide LI.Inv, LI.Next, LE.Entries;
    LE.StepLinearizes(s, s', t);
  }

  /** A call just begun has no effect yet, and leaves the view as it was. */
  lemma CallView(phase: Phase, l: L.Local, op: L.Op, phase': Phase, l': L.Local, height: nat)
    requires CallOf(phase, height) == Some((op, phase')) && !LW.Done(l') && l'.op == op
    ensures View(phase', l') == View(phase, l) && Agrees(phase', l') && Inside(phase')
  {
    hide LW.Done;
  }

  lemma CallsFollow(j: Joint, j': Joint, t: Tid)
    requires LI.Inv(j.list) && LI.Inv(j'.list) && t in j.phases && t in j.list.locals
    requires Agrees(j.phases[t], j.list.locals[t]) && Calls(j, j', t)
    ensures Follows(Abs(j), Abs(j'), t)
    ensures Agrees(j'.phases[t], j'.list.locals[t])
  {
    hide LI.Inv, LI.Next, LE.Entries, View, Agrees, Reals, Views;
    var height: nat :| CallOf(j.phases[t], height).Some?
        && j'.list == L.Invoke(j.list, t, CallOf(j.phases[t], height).value.0)
                       && j' == Move(j, t, CallOf(j.phases[t], height).value.1).(list := j'.list);
    var (op, phase') := CallOf(j.phases[t], height).value;
    InvokeSame(j.list, j'.list, t, op);
    CallView(j.phases[t], j.list.locals[t], op, phase', j'.list.locals[t], height);
    ViewsMove(j, j', t);
    assert Views(j') == Views(j);
    SameFollows(Abs(j), Abs(j'), t);
  }

  /** The answer of a call is what the thread's view has already become, or what it becomes now. */
  lemma ReturnsFollow(j: Joint, j': Joint, t: Tid)
    requires LI.Inv(j.list) && LI.Inv(j'.list) && t in j.phases && t in j.list.locals
    requires Agrees(j.phases[t], j.list.locals[t]) && Returns(j, j', t)
    ensures Follows(Abs(j), Abs(j'), t)
    ensures Agrees(j'.phases[t], j'.list.locals[t])
  {
    hide LI.Inv, LE.Entries, View, Reals, Views, Follows;
    ViewsMove(j, j', t);
    AnswerFollows(Abs(j), t, j.phases[t], j.list.locals[t]);
  }

  lemma AnswerFollows(r: R.State, t: Tid, phase: Phase, l: L.Local)
    requires t in r.pcs && r.pcs[t] == View(phase, l) && Agrees(phase, l) && Inside(phase) && l.at.Returned?
    ensures Follows(r, r.(pcs := r.pcs[t := View(After(phase, l.at.result, l.at.out), l)]), t)
  {
    var r' := r.(pcs := r.pcs[t := View(After(phase, l.at.result, l.at.out), l)]);
    if !r.pcs[t].Idle? {
      StepFollows(r, t, l.at.out as real, false);
    }
    if r'.pcs[t] == r.pcs[t] {
      assert r'.pcs == r.pcs;
    }
  }

  lemma CountsFollow(j: Joint, j': Joint, t: Tid)
    requires LI.Inv(j.list) && LI.Inv(j'.list) && t in j.phases && t in j.list.locals
    requires Agrees(j.phases[t], j.list.locals[t]) && Counts(j, j', t)
    ensures Follows(Abs(j), Abs(j'), t)
    ensures Agrees(j'.phases[t], j'.list.locals[t])
  {
    hide LI.Inv, LE.Entries, Reals, Views;
    ViewsMove(j, j', t);
    if j.phases[t].Rest? {
      var p, v :| j' == Move(j, t, Count(p, v));
      assert Abs(j') == R.At(Abs(j), t, R.Count(p as real, v));
    } else {
      assert Abs(j') == R.Step(Abs(j), t, 0.0, true);
      StepFollows(Abs(j), t, 0.0, true);
    }
  }

  lemma FollowsKeepsInv(r: R.State, r': R.State, t: Tid)
    requires R.Inv(r) && Follows(r, r', t)
    ensures R.Inv(r')
  {
    if r' != r {
      R.NextKeepsInv(r, r', t);
    }
  }

  /** What the list's machine does to the other threads and to this one. */
  lemma ListMoves(s: L.State, s': L.State, t: Tid)
    requires LI.Inv(s) && LI.Next(s, s', t) && t in s.locals
    ensures LI.Inv(s') && s'.locals.Keys == s.locals.Keys
    ensures forall u :: u in s.locals && u != t ==> s'.locals[u] == s.locals[u]
    ensures forall u :: u in s.locals && Watched(s, u) ==> Watched(s', u)
    ensures s'.locals[t].calls == s.locals[t].calls ==> s'.locals[t].op == s.locals[t].op
    ensures s'.locals[t].calls == s.locals[t].calls && LI.Between(s.locals[t].at) ==> s'.locals == s.locals
  {
    LE.StepLinearizes(s, s', t);
    LW.OthersUnmoved(s, s', t);
    if s'.locals[t].calls == s.locals[t].calls && LI.Between(s.locals[t].at) {
      BetweenStays(s, s', t);
    }
    hide LI.Inv, LI.Next, Watched;
    forall u | u in s.locals && Watched(s, u) ensures Watched(s', u) {
      WatchedStays(s, s', t, u);
    }
  }

  lemma StepDone(j: Joint, j': Joint, t: Tid)
    requires Inv(j) && t in j.phases && t in j.list.locals && LI.Inv(j'.list) && Follows(Abs(j), Abs(j'), t)
    requires j'.phases.Keys == j.phases.Keys && j'.list.locals.Keys == j.list.locals.Keys
    requires forall u :: u in j.phases && u != t ==> j'.phases[u] == j.phases[u]
    requires forall u :: u in j.list.locals && u != t ==> j'.list.locals[u] == j.list.locals[u]
    requires forall u :: u in j.list.locals && Watched(j.list, u) ==> Watched(j'.list, u)
    requires Agrees(j'.phases[t], j'.list.locals[t])
    ensures Inv(j')
  {
    hide LI.Inv, R.Inv, Watched, Abs, Follows;
    FollowsKeepsInv(Abs(j), Abs(j'), t);
  }

  lemma CallMoves(j: Joint, j': Joint, t: Tid)
    requires t in j.phases && t in j.list.locals && (Calls(j, j', t) || Returns(j, j', t) || Counts(j, j', t))
    ensures j'.phases.Keys == j.phases.Keys && forall u :: u in j.phases && u != t ==> j'.phases[u] == j.phases[u]
    ensures Calls(j, j', t) ==> LI.Next(j.list, j'.list, t)
    ensures Returns(j, j', t) || Counts(j, j', t) ==> j'.list == j.list
  {
    hide LI.Next, L.Invoke;
  }

  /** Every step of every thread, the list's own included, is the reservoir's step or none. */
  lemma NextFollows(j: Joint, j': Joint, t: Tid)
    requires Inv(j) && Next(j, j', t)
    ensures Inv(j') && Follows(Abs(j), Abs(j'), t)
  {
    InvFacts(j, t);
    hide LI.Inv, LI.Next, Watched, Abs, Follows, Inv, Counts, Returns, Calls, View;
    if Counts(j, j', t) {
      CallMoves(j, j', t);
      CountsFollow(j, j', t);
      StepDone(j, j', t);
    } else if Returns(j, j', t) {
      CallMoves(j, j', t);
      ReturnsFollow(j, j', t);
      StepDone(j, j', t);
    } else if Calls(j, j', t) {
      CallMoves(j, j', t);
      ListMoves(j.list, j'.list, t);
      CallsFollow(j, j', t);
      StepDone(j, j', t);
    } else {
      ListMoves(j.list, j'.list, t);
      WorksFollow(j, j', t);
      AgreesStays(j.phases[t], j.list.locals[t], j'.list.locals[t]);
      StepDone(j, j', t);
    }
  }

  lemma AgreesStays(phase: Phase, l: L.Local, l': L.Local)
    requires Agrees(phase, l) && l'.op == l.op && (LI.Between(l.at) ==> l' == l)
    ensures Agrees(phase, l')
  {
  }

  // ---------------------------------------------------------------- whole runs

  datatype Run = Run(states: seq<Joint>, actors: seq<Tid>)

  ghost predicate IsRun(r: Run)
    reads {}
  {
    && |r.states| == |r.actors| + 1 && Init(r.states[0])
    && (forall i :: 0 <= i < |r.actors| ==> Next(r.states[i], r.states[i + 1], r.actors[i]))
  }

  lemma {:induction false} RunInv(r: Run, n: nat)
    requires IsRun(r) && n < |r.states|
    ensures Inv(r.states[n])
  {
    hide Inv, Next, Init;
    if n == 0 {
      InitInv(r.states[0]);
    } else {
      RunInv(r, n - 1);
      assert Next(r.states[n - 1], r.states[n - 1 + 1], r.actors[n - 1]);
      NextFollows(r.states[n - 1], r.states[n], r.actors[n - 1]);
    }
  }

  /** Threads whose insert over capacity is in the list and whose erase has not yet taken effect. */
  function Owing(j: Joint): set<Tid>
    reads {}
  {
    set t | t in j.phases && t in j.list.locals
            && var phase, done := j.phases[t], LW.Done(j.list.locals[t]);
               phase.Owe? || phase.Again? || phase.Asking? || (phase.Overfilling? && done) || (phase.Erasing? && !done)
  }

  /**
   * Over the concurrent list, however its calls and all their steps interleave, the
   * entries in the list are at most 1028 plus the threads still owing an erase.
   */
  lemma CapacityOnList(r: Run, n: nat)
    requires IsRun(r) && n < |r.states|
    ensures LI.Inv(r.states[n].list) && |LE.Entries(r.states[n].list)| <= R.SIZE + |Owing(r.states[n])|
  {
    RunInv(r, n);
    BoundOf(r.states[n]);
  }

  lemma BoundOf(j: Joint)
    requires Inv(j)
    ensures LI.Inv(j.list) && |LE.Entries(j.list)| <= R.SIZE + |Owing(j)|
  {
    hide LI.Inv, LE.Entries, Watched;
    RealsSize(LE.Entries(j.list));
    OwingViews(j);
  }

  lemma OwingViews(j: Joint)
    requires forall t :: t in j.phases && t in j.list.locals ==> Agrees(j.phases[t], j.list.locals[t])
    ensures R.Owing(Views(j)) == Owing(j)
  {
    hide LW.Done;
  }

  lemma InitInv(j: Joint)
    requires Init(j)
    ensures Inv(j)
  {
    InitList(j.list);
    hide LI.Inv, LE.Entries, LI.Init, Watched;
    RestInv(j);
  }

  /** A joint state at rest, on an empty list. */
  lemma RestInv(j: Joint)
    requires LI.Inv(j.list) && LE.Entries(j.list) == map[] && j.phases.Keys == j.list.locals.Keys
    requires forall t :: t in j.phases ==> j.phases[t].Rest?
    requires forall t :: t in j.list.locals ==> LI.Between(j.list.locals[t].at) && Watched(j.list, t)
    ensures Inv(j)
  {
    hide LI.Inv, LE.Entries, Watched;
    assert Reals(map[]) == map[];
    assert R.Filling(Views(j)) == {};
  }

  lemma InitList(s: L.State)
    requires LI.Init(s)
    ensures LI.Inv(s) && LE.Entries(s) == map[]
    ensures forall t :: t in s.locals ==> LI.Between(s.locals[t].at) && Watched(s, t)
  {
    LR.InitEntries(LR.Run([s], []));
    hide LI.Inv, LE.Entries;
    forall t | t in s.locals ensures Watched(s, t) {
      LC.InitWitness(s, t);
    }
  }

  // ---------------------------------------------------------------- what one update does

  /** A change of the map, before and after. */
  datatype Change = Change(before: map<int, int>, after: map<int, int>)

  /**
   * What the latest update of a thread has been told and has done (history): its priority and
   * value, whether it counted itself over capacity, the answers of its calls of firstKey and
   * insert, and the changes of the map at its own steps.
   */
  datatype Tally = Tally(
    begun: bool,
    p: int,
    v: int,
    over: bool,
    answers: seq<int>,
    inserted: Option<bool>,
    changes: seq<Change>)

  /** The tally of u's latest update after a step of t. */
  ghost function Note(y: Tally, j: Joint, j': Joint, t: Tid, u: Tid): Tally
    requires LI.Inv(j.list) && LI.Inv(j'.list) && u in j.phases && u in j'.phases && u in j.list.locals
    reads {}
  {
    var m, m', phase, l := LE.Entries(j.list), LE.Entries(j'.list), j.phases[u], j.list.locals[u];
    if t != u then y
    else if m' != m then y.(changes := y.changes + [Change(m, m')])
    else if j'.phases[u] == phase then y
    else if phase.Rest? && j'.phases[u].Count? then
      Tally(true, j'.phases[u].p, j'.phases[u].v, false, [], None, [])
    else if phase.Count? then y.(over := j.count >= R.SIZE)
    else if Inside(phase) && l.at.Returned? then
      match l.op
      case First => y.(answers := y.answers + [l.at.out])
      case Insert(_, _, _) => y.(inserted := Some(l.at.result))
      case _ => y
    else y
  }

  predicate Puts(c: Change, p: int, v: int)
    reads {}
  {
    p !in c.before && c.after == c.before[p := v]
  }

  predicate Takes(c: Change, k: int)
    reads {}
  {
    k in c.before && c.after == c.before - {k}
  }

  function Last(answers: seq<int>): int
    requires answers != []
    reads {}
  {
    answers[|answers| - 1]
  }

  /**
   * What an update that is over has done. Below capacity it put its entry in if insert said so.
   * Over capacity it asked for the first key; with a priority above that it put its entry in if
   * insert said so, and then took out the key it was given last; otherwise it did nothing.
   */
  predicate Did(y: Tally)
    reads {}
  {
    if !y.over then
      && y.answers == [] && y.inserted.Some?
      && if y.inserted.value then |y.changes| == 1 && Puts(y.changes[0], y.p, y.v) else y.changes == []
    else
      && y.answers != []
      && if y.answers[0] < y.p then
           && y.inserted.Some?
           && if y.inserted.value then
                |y.changes| == 2 && Puts(y.changes[0], y.p, y.v) && Takes(y.changes[1], Last(y.answers))
              else y.changes == [] && |y.answers| == 1
         else y.inserted.None? && y.changes == [] && |y.answers| == 1
  }

  /** An update on its way: told `answers`, with nothing done yet. */
  predicate Fresh(y: Tally, p: int, v: int, over: bool, answers: seq<int>)
    reads {}
  {
    y.begun && y.p == p && y.v == v && y.over == over && y.answers == answers && y.inserted.None? && y.changes == []
  }

  /** ... inside its insert, which has put the entry in if `done`. */
  predicate Putting(y: Tally, op: L.Op, over: bool, answers: seq<int>, done: bool)
    reads {}
  {
    && y.begun && y.over == over && y.answers == answers && y.inserted.None?
    && op.Insert? && op.key == y.p && op.value == y.v
    && if done then |y.changes| == 1 && Puts(y.changes[0], y.p, y.v) else y.changes == []
  }

  /** ... with its entry in, owing an erase. */
  predicate Indebted(y: Tally)
    reads {}
  {
    && y.begun && y.over && y.answers != [] && y.answers[0] < y.p && y.inserted == Some(true)
    && |y.changes| >= 1 && Puts(y.changes[0], y.p, y.v)
  }

  /** What the phase of a thread says of its tally. */
  predicate TallyOk(phase: Phase, l: L.Local, y: Tally)
    reads {}
  {
    match phase
    case Rest => y.begun ==> Did(y)
    case Count(p, v) => Fresh(y, p, v, false, [])
    case Fill(p, v) => Fresh(y, p, v, false, [])
    case Filling => Putting(y, l.op, false, [], LW.Done(l))
    case Peek(p, v) => Fresh(y, p, v, true, [])
    case Peeking(p, v) => Fresh(y, p, v, true, [])
    case Over(p, v, first) => Fresh(y, p, v, true, [first]) && first < p
    case Overfilling(first) => Putting(y, l.op, true, [first], LW.Done(l)) && first < y.p
    case Owe(first) => Indebted(y) && Last(y.answers) == first && |y.changes| == 1
    case Erasing(first) =>
      && Indebted(y) && Last(y.answers) == first
      && if LW.Done(l) then |y.changes| == 2 && Takes(y.changes[1], first) else |y.changes| == 1
    case Again => Indebted(y) && |y.changes| == 1
    case Asking => Indebted(y) && |y.changes| == 1
  }

  lemma CountsTally(j: Joint, j': Joint, t: Tid, y: Tally)
    requires LI.Inv(j.list) && j'.list == j.list && t in j.phases && t in j.list.locals && t in j'.phases
    requires Counts(j, j', t) && TallyOk(j.phases[t], j.list.locals[t], y)
    ensures TallyOk(j'.phases[t], j'.list.locals[t], Note(y, j, j', t, t))
  {
    hide LI.Inv, LE.Entries, LW.Done;
  }

  lemma ReturnsTally(j: Joint, j': Joint, t: Tid, y: Tally)
    requires LI.Inv(j.list) && j'.list == j.list && t in j.phases && t in j.list.locals && t in j'.phases
    requires Returns(j, j', t) && TallyOk(j.phases[t], j.list.locals[t], y) && Agrees(j.phases[t], j.list.locals[t])
    ensures TallyOk(j'.phases[t], j'.list.locals[t], Note(y, j, j', t, t))
  {
    hide LI.Inv, LE.Entries;
    assert LW.Done(j.list.locals[t]) <==>
        j.list.locals[t].at.result && (j.list.locals[t].op.Insert? || j.list.locals[t].op.Erase?);
    hide LW.Done, Puts, Takes;
  }

  lemma CallsTally(j: Joint, j': Joint, t: Tid, y: Tally)
    requires LI.Inv(j.list) && LI.Inv(j'.list) && t in j.phases && t in j.list.locals && t in j'.phases
    requires Calls(j, j', t) && TallyOk(j.phases[t], j.list.locals[t], y)
    ensures t in j'.list.locals && TallyOk(j'.phases[t], j'.list.locals[t], Note(y, j, j', t, t))
  {
    hide LI.Inv, LI.Next, LE.Entries, Puts, Takes;
    var height: nat :| CallOf(j.phases[t], height).Some?
        && j'.list == L.Invoke(j.list, t, CallOf(j.phases[t], height).value.0)
                       && j' == Move(j, t, CallOf(j.phases[t], height).value.1).(list := j'.list);
    InvokeSame(j.list, j'.list, t, CallOf(j.phases[t], height).value.0);
  }

  /** The insert or the erase takes effect, or nothing happens. */
  lemma WorkTally(j: Joint, j': Joint, t: Tid, y: Tally)
    requires LI.Inv(j.list) && LI.Inv(j'.list) && t in j.phases && t in j.list.locals && t in j'.list.locals
    requires j' == j.(list := j'.list) && j'.list.locals[t].op == j.list.locals[t].op
    requires Agrees(j.phases[t], j.list.locals[t]) && (LW.Changes(j.list, t) ==> Inside(j.phases[t]))
    requires LW.Done(j'.list.locals[t]) <==> LW.Done(j.list.locals[t]) || LW.Changes(j.list, t)
    requires LW.Changes(j.list, t) ==> !LW.Done(j.list.locals[t])
    requires LE.Publishes(j.list, t) ==>
               var op := j.list.locals[t].op;
               op.Insert? && op.key !in LE.Entries(j.list)
                   && LE.Entries(j'.list) == LE.Entries(j.list)[op.key := op.value]
    requires LE.Kills(j.list, t) ==>
               var op := j.list.locals[t].op;
               op.Erase? && op.key in LE.Entries(j.list) && LE.Entries(j'.list) == LE.Entries(j.list) - {op.key}
    requires !LW.Changes(j.list, t) ==> LE.Entries(j'.list) == LE.Entries(j.list)
    requires TallyOk(j.phases[t], j.list.locals[t], y)
    ensures TallyOk(j'.phases[t], j'.list.locals[t], Note(y, j, j', t, t))
  {
    hide LI.Inv, LE.Entries, LW.Done, LE.Publishes, LE.Kills;
  }

  lemma WorksTally(j: Joint, j': Joint, t: Tid, y: Tally)
    requires Inv(j) && t in j.phases && Works(j, j', t) && LI.Inv(j'.list)
    requires TallyOk(j.phases[t], j.list.locals[t], y)
    ensures TallyOk(j'.phases[t], j'.list.locals[t], Note(y, j, j', t, t))
  {
    var s, s' := j.list, j'.list;
    InvFacts(j, t);
    assert Watched(s, t);
    hide Inv, LI.Inv, LI.Next, LE.Entries, LW.Done, LE.Publishes, LE.Kills, Watched, Note, TallyOk;
    LE.StepLinearizes(s, s', t);
    LW.OthersUnmoved(s, s', t);
    DoneStep(s, s', t);
    if LW.Changes(s, t) {
      ChangesInside(s, t);
    }
    WorkTally(j, j', t, y);
  }

  lemma StepTally(j: Joint, j': Joint, t: Tid, u: Tid, y: Tally)
    requires Inv(j) && Next(j, j', t) && Inv(j') && u in j.phases && TallyOk(j.phases[u], j.list.locals[u], y)
    ensures LI.Inv(j.list) && LI.Inv(j'.list) && u in j'.phases && u in j.list.locals && u in j'.list.locals
    ensures TallyOk(j'.phases[u], j'.list.locals[u], Note(y, j, j', t, u))
  {
    InvFacts(j, t);
    InvFacts(j, u);
    hide LI.Inv, LI.Next, Watched, Inv, Counts, Returns, Calls, TallyOk, Agrees, LE.Entries;
    assert LI.Inv(j'.list) by { JointList(j'); }
    if Works(j, j', t) {
      ListMoves(j.list, j'.list, t);
      if u == t {
        WorksTally(j, j', t, y);
      }
    } else {
      CallMoves(j, j', t);
      if Calls(j, j', t) {
        ListMoves(j.list, j'.list, t);
        if u == t {
          CallsTally(j, j', t, y);
        }
      } else if u == t {
        if Returns(j, j', t) {
          ReturnsTally(j, j', t, y);
        } else {
          CountsTally(j, j', t, y);
        }
      }
    }
  }

  lemma JointList(j: Joint)
    requires Inv(j)
    ensures LI.Inv(j.list)
  {
  }

  /** u is a thread of the run, every state of which satisfies the list's invariant. */
  ghost predicate Followed(r: Run, u: Tid)
    reads {}
  {
    && |r.states| == |r.actors| + 1
    && forall i {:trigger r.states[i]} :: 0 <= i < |r.states| ==>
         LI.Inv(r.states[i].list) && u in r.states[i].phases && u in r.states[i].list.locals
  }

  /** The tally of the update u is in, or was last in, at state n. */
  ghost function TallyOf(r: Run, u: Tid, n: nat): Tally
    requires Followed(r, u) && n < |r.states|
    reads {}
  {
    if n == 0 then Tally(false, 0, 0, false, [], None, [])
    else Note(TallyOf(r, u, n - 1), r.states[n - 1], r.states[n], r.actors[n - 1], u)
  }

  lemma {:induction false} AlwaysThere(r: Run, u: Tid, n: nat)
    requires IsRun(r) && n < |r.states| && u in r.states[0].phases
    ensures Inv(r.states[n]) && LI.Inv(r.states[n].list) && u in r.states[n].phases && u in r.states[n].list.locals
  {
    hide Inv, LI.Inv, Next, Init;
    RunInv(r, n);
    if n > 0 {
      AlwaysThere(r, u, n - 1);
      assert Next(r.states[n - 1], r.states[n - 1 + 1], r.actors[n - 1]);
      KeysStay(r.states[n - 1], r.states[n], r.actors[n - 1]);
    }
    InvFacts(r.states[n], u);
  }

  lemma KeysStay(j: Joint, j': Joint, t: Tid)
    requires Next(j, j', t)
    ensures j'.phases.Keys == j.phases.Keys
  {
    hide LI.Next, L.Invoke;
  }

  lemma {:induction false} TallyUpTo(r: Run, u: Tid, n: nat)
    requires IsRun(r) && Followed(r, u) && n < |r.states|
    ensures Inv(r.states[n]) && TallyOk(r.states[n].phases[u], r.states[n].list.locals[u], TallyOf(r, u, n))
  {
    hide Inv, LI.Inv, Next, TallyOk, Note, Init;
    RunInv(r, n);
    if n == 0 {
      FirstTally(r, u);
    } else {
      TallyUpTo(r, u, n - 1);
      assert Next(r.states[n - 1], r.states[n - 1 + 1], r.actors[n - 1]);
      StepTally(r.states[n - 1], r.states[n], r.actors[n - 1], u, TallyOf(r, u, n - 1));
    }
  }

  lemma FirstTally(r: Run, u: Tid)
    requires IsRun(r) && Followed(r, u)
    ensures TallyOk(r.states[0].phases[u], r.states[0].list.locals[u], TallyOf(r, u, 0))
  {
    hide LI.Inv, LI.Init, Next;
  }

  /**
   * Over the concurrent list, in any run: between updates, the latest update of each thread has
   * changed the map at its own steps as Did says of what it was told, and in no other way.
   */
  lemma UpdateDoes(r: Run, u: Tid, n: nat)
    requires IsRun(r) && n < |r.states| && u in r.states[0].phases
    ensures Followed(r, u) && u in r.states[n].phases
    ensures r.states[n].phases[u].Rest? && TallyOf(r, u, n).begun ==> Did(TallyOf(r, u, n))
  {
    hide IsRun, Inv, LI.Inv, Note, Did;
    forall i | 0 <= i < |r.states|
      ensures LI.Inv(r.states[i].list) && u in r.states[i].phases && u in r.states[i].list.locals
    {
      AlwaysThere(r, u, i);
    }
    Sized(r);
    TallyUpTo(r, u, n);
  }

  lemma Sized(r: Run)
    requires IsRun(r)
    ensures |r.states| == |r.actors| + 1
  {
  }
}
