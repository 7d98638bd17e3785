/**
 * The priority-sampling reservoir within one landmark epoch. The map under it is taken
 * at its linearization points; insert and erase may also say false for no reason and
 * firstKey may answer anything, since a concurrent map promises no more.
 */
module Reservoir {
  import opened Words

  /** kSize. */
  const SIZE := 1028

  /** Where in update a thread is. */
  datatype Pc =
    | Idle
    | Count(p: real, v: int)                 // about to fetch_add the count
    | Fill(p: real, v: int)                  // counted below SIZE: about to insert
    | Peek(p: real, v: int)                  // about to ask for the first key
    | Over(p: real, v: int, first: real)     // first < p: about to insert over capacity
    | Owe(first: real)                       // inserted: about to erase first
    | Again                                  // that erase failed: about to ask again

  datatype State = State(entries: map<real, int>, count: nat, pcs: map<Tid, Pc>)

  function At(s: State, t: Tid, pc: Pc): State {
    s.(pcs := s.pcs[t := pc])
  }

  /** One step of thread t; `first` is what firstKey answers, `hit` whether insert or erase may succeed. */
  function Step(s: State, t: Tid, first: real, hit: bool): State
    requires t in s.pcs
  {
    match s.pcs[t]
    case Idle => s
    case Count(p, v) => At(s.(count := s.count + 1), t, if s.count < SIZE then Fill(p, v) else Peek(p, v))
    case Fill(p, v) => At(if hit && p !in s.entries then s.(entries := s.entries[p := v]) else s, t, Idle)
    case Peek(p, v) => At(s, t, if first < p then Over(p, v, first) else Idle)
    case Over(p, v, f) =>
      if hit && p !in s.entries then At(s.(entries := s.entries[p := v]), t, Owe(f)) else At(s, t, Idle)
    case Owe(f) => if hit && f in s.entries then At(s.(entries := s.entries - {f}), t, Idle) else At(s, t, Again)
    case Again => At(s, t, Owe(first))
  }

  ghost predicate Next(s: State, s': State, t: Tid) {
    t in s.pcs &&
    if s.pcs[t].Idle? then exists p, v :: s' == At(s, t, Count(p, v))
    else exists first, hit :: s' == Step(s, t, first, hit)
  }

  ghost predicate Init(s: State) {
    s.entries == map[] && s.count == 0 && forall t :: t in s.pcs ==> s.pcs[t].Idle?
  }

  /** Threads between an over-capacity insert and their successful erase. */
  function Owing(pcs: map<Tid, Pc>): set<Tid> {
    set t | t in pcs && (pcs[t].Owe? || pcs[t].Again?)
  }

  /** Threads that have counted themselves below capacity and not yet inserted. */
  function Filling(pcs: map<Tid, Pc>): set<Tid> {
    set t | t in pcs && pcs[t].Fill?
  }

  function Min(a: nat, b: nat): nat {
    if a < b then a else b
  }

  ghost predicate Inv(s: State) {
    |s.entries| + |Filling(s.pcs)| <= Min(s.count, SIZE) + |Owing(s.pcs)|
  }

  // ---------------------------------------------------------------- counting threads

  lemma MovesOwing(pcs: map<Tid, Pc>, t: Tid, pc: Pc)
    requires t in pcs
    ensures |Owing(pcs[t := pc])| == |Owing(pcs)| - (if t in Owing(pcs) then 1 else 0)
            + (if pc.Owe? || pc.Again? then 1 else 0)
  {
    var o := Owing(pcs) - {t};
    assert Owing(pcs[t := pc]) == o + if pc.Owe? || pc.Again? then {t} else {};
  }

  lemma Moves(pcs: map<Tid, Pc>, t: Tid, pc: Pc)
    requires t in pcs
    ensures |Owing(pcs[t := pc])| == |Owing(pcs)| - (if t in Owing(pcs) then 1 else 0)
            + (if pc.Owe? || pc.Again? then 1 else 0)
    ensures |Filling(pcs[t := pc])| == |Filling(pcs)| - (if t in Filling(pcs) then 1 else 0)
            + (if pc.Fill? then 1 else 0)
  {
    MovesOwing(pcs, t, pc);
    var f := Filling(pcs) - {t};
    assert Filling(pcs[t := pc]) == f + if pc.Fill? then {t} else {};
  }

  lemma OneMore(m: map<real, int>, p: real, v: int)
    requires p !in m
    ensures |m[p := v]| == |m| + 1
  {
    assert m[p := v].Keys == m.Keys + {p};
  }

  lemma OneLess(m: map<real, int>, p: real)
    requires p in m
    ensures |m - {p}| == |m| - 1
  {
    assert (m - {p}).Keys == m.Keys - {p};
  }

  lemma StepKeepsInv(s: State, t: Tid, first: real, hit: bool)
    requires Inv(s) && t in s.pcs
    ensures Inv(Step(s, t, first, hit))
  {
    var s' := Step(s, t, first, hit);
    if !s.pcs[t].Idle? {
      Moves(s.pcs, t, s'.pcs[t]);
      match s.pcs[t]
      case Fill(p, v) => if p !in s.entries { OneMore(s.entries, p, v); }
      case Over(p, v, _) => if p !in s.entries { OneMore(s.entries, p, v); }
      case Owe(f) => if f in s.entries { OneLess(s.entries, f); }
      case _ =>
    }
  }

  lemma NextKeepsInv(s: State, s': State, t: Tid)
    requires Inv(s) && Next(s, s', t)
    ensures Inv(s')
  {
    if s.pcs[t].Idle? {
      var p, v :| s' == At(s, t, Count(p, v));
      Moves(s.pcs, t, Count(p, v));
    } else {
      var first, hit :| s' == Step(s, t, first, hit);
      StepKeepsInv(s, t, first, hit);
    }
  }

  datatype Run = Run(states: seq<State>, actors: seq<Tid>)

  ghost predicate IsRun(r: Run) {
    && |r.states| == |r.actors| + 1 && Init(r.states[0])
    && (forall i :: 0 <= i < |r.actors| ==> Next(r.states[i], r.states[i + 1], r.actors[i]))
  }

  lemma {:induction false} RunInv(r: Run, n: nat)
    requires IsRun(r) && n < |r.states|
    ensures Inv(r.states[n])
  {
    if n == 0 {
      assert Filling(r.states[0].pcs) == {};
    } else {
      RunInv(r, n - 1);
      assert Next(r.states[n - 1], r.states[n - 1 + 1], r.actors[n - 1]);
      NextKeepsInv(r.states[n - 1], r.states[n], r.actors[n - 1]);
    }
  }

  /** Under every interleaving the live entries are at most 1028 plus the threads still owing an erase. */
  lemma CapacityBound(r: Run, n: nat)
    requires IsRun(r) && n < |r.states|
    ensures |r.states[n].entries| <= SIZE + |Owing(r.states[n].pcs)|
  {
    RunInv(r, n);
  }

  /** ... so between updates at most 1028. */
  lemma CapacityAtRest(r: Run, n: nat)
    requires IsRun(r) && n < |r.states| && forall t :: t in r.states[n].pcs ==> r.states[n].pcs[t].Idle?
    ensures |r.states[n].entries| <= SIZE
  {
    CapacityBound(r, n);
    assert Owing(r.states[n].pcs) == {};
  }

  // ---------------------------------------------------------------- one thread at a time

  /** kept is the top min(|seen|, 1028) of seen by priority. */
  ghost predicate IsTop(kept: map<real, int>, seen: map<real, int>) {
    && |kept| == Min(|seen|, SIZE)
    && (forall p :: p in kept ==> p in seen && seen[p] == kept[p])
    && (forall p, q :: p in kept && q in seen && q !in kept ==> q < p)
  }

  ghost predicate IsLeast(m: map<real, int>, k: real) {
    k in m && forall q :: q in m ==> k <= q
  }

  lemma FillTop(kept: map<real, int>, seen: map<real, int>, p: real, v: int)
    requires IsTop(kept, seen) && p !in seen && |seen| < SIZE
    ensures p !in kept && IsTop(kept[p := v], seen[p := v])
  {
    OneMore(kept, p, v);
    OneMore(seen, p, v);
    forall q | q in kept.Keys ensures q in seen.Keys {
      assert q in kept;
    }
    SubsetSame(kept.Keys, seen.Keys);
  }

  lemma Inhabited(a: set<real>)
    requires a != {}
    ensures exists x :: x in a
  {
    assert (forall x :: x !in a) ==> a == {};
  }

  lemma SubsetSame(a: set<real>, b: set<real>)
    requires a <= b && |a| == |b|
    ensures a == b
  {
    forall x | x in b ensures x in a {
      if x !in a { SubsetSmaller(a, b, x); }
    }
  }

  lemma SubsetSmaller(a: set<real>, b: set<real>, x: real)
    requires a <= b && x in b && x !in a
    ensures |a| < |b|
  {
    assert a <= b - {x};
    SubsetSize(a, b - {x});
  }

  lemma {:induction false} SubsetSize(a: set<real>, b: set<real>)
    requires a <= b
    ensures |a| <= |b|
    decreases b
  {
    if a != {} {
      Inhabited(a);
      var x :| x in a;
      SubsetSize(a - {x}, b - {x});
    }
  }

  lemma NotEmpty(kept: map<real, int>, seen: map<real, int>)
    requires IsTop(kept, seen) && |seen| >= SIZE
    ensures kept != map[]
  {
  }

  /** A priority below the least kept one changes nothing. */
  lemma SkipTop(kept: map<real, int>, seen: map<real, int>, p: real, v: int, first: real)
    requires IsTop(kept, seen) && p !in seen && |seen| >= SIZE && IsLeast(kept, first) && p <= first
    ensures IsTop(kept, seen[p := v])
  {
    OneMore(seen, p, v);
  }

  /** A priority above it takes its place. */
  lemma EvictTop(kept: map<real, int>, seen: map<real, int>, p: real, v: int, first: real)
    requires IsTop(kept, seen) && p !in seen && |seen| >= SIZE && IsLeast(kept, first) && first < p
    ensures p !in kept && first in kept[p := v] && IsTop(kept[p := v] - {first}, seen[p := v])
  {
    OneMore(kept, p, v);
    OneMore(seen, p, v);
    OneLess(kept[p := v], first);
  }

  // ---------------------------------------------------------------- runs whose updates do not overlap

  /** Every priority with which an update has begun, and its value. */
  function Begun(r: Run, n: nat): map<real, int>
    requires |r.states| == |r.actors| + 1 && n < |r.states|
  {
    if n == 0 then map[]
    else
      var s, s', t := r.states[n - 1], r.states[n], r.actors[n - 1];
      var before := Begun(r, n - 1);
      if t in s.pcs && s.pcs[t].Idle? && t in s'.pcs && s'.pcs[t].Count? then before[s'.pcs[t].p := s'.pcs[t].v]
      else before
  }

  /** t takes a step inside its update; firstKey answers the least key, and no call fails for no reason. */
  ghost predicate HonestStep(s: State, s': State, t: Tid) {
    && t in s.pcs && !s.pcs[t].Idle?
    && exists first {:trigger Step(s, t, first, true)} ::
         (s.entries != map[] ==> IsLeast(s.entries, first)) && s' == Step(s, t, first, true)
  }

  /** t begins an update, with a priority not used before, while no other is under way. */
  ghost predicate AloneBegins(s: State, s': State, t: Tid, begun: map<real, int>) {
    && t in s.pcs && (forall u :: u in s.pcs ==> s.pcs[u].Idle?)
    && exists p, v :: p !in begun && s' == At(s, t, Count(p, v))
  }

  /** Updates one after another, by any threads, each with a priority of its own. */
  ghost predicate IsSolo(r: Run) {
    && |r.states| == |r.actors| + 1 && Init(r.states[0])
    && forall i :: 0 <= i < |r.actors| ==>
         || HonestStep(r.states[i], r.states[i + 1], r.actors[i])
         || AloneBegins(r.states[i], r.states[i + 1], r.actors[i], Begun(r, i))
  }

  /** Where an update stands: the entries are the top of what came before it, or but for `f` of all so far. */
  ghost predicate UnderWay(s: State, pc: Pc, begun: map<real, int>) {
    match pc
    case Idle => true
    case Count(p, v) => p in begun && begun[p] == v && IsTop(s.entries, begun - {p}) && s.count == |begun| - 1
    case Fill(p, v) =>
      p in begun && begun[p] == v && IsTop(s.entries, begun - {p}) && s.count == |begun| <= SIZE
    case Peek(p, v) =>
      p in begun && begun[p] == v && IsTop(s.entries, begun - {p}) && s.count == |begun| > SIZE
    case Over(p, v, f) =>
      && p in begun && begun[p] == v && IsTop(s.entries, begun - {p}) && s.count == |begun| > SIZE
      && IsLeast(s.entries, f) && f < p
    case Owe(f) => f in s.entries && IsTop(s.entries - {f}, begun) && s.count == |begun|
    case Again => false
  }

  ghost predicate SoloOk(s: State, begun: map<real, int>) {
    && (forall t :: t in s.pcs ==> UnderWay(s, s.pcs[t], begun))
    && (forall t, u :: t in s.pcs && u in s.pcs && t != u ==> s.pcs[t].Idle? || s.pcs[u].Idle?)
    && ((forall t :: t in s.pcs ==> s.pcs[t].Idle?) ==> IsTop(s.entries, begun) && s.count == |begun|)
  }

  /** t's update is still under way, or over and accounted for. */
  ghost predicate GoesOn(s: State, t: Tid, begun: map<real, int>) {
    && t in s.pcs
    && if s.pcs[t].Idle? then IsTop(s.entries, begun) && s.count == |begun| else UnderWay(s, s.pcs[t], begun)
  }

  /** One access of an update, as the lemmas above have it. */
  lemma UpdateGoesOn(s: State, t: Tid, first: real, begun: map<real, int>)
    requires t in s.pcs && !s.pcs[t].Idle? && UnderWay(s, s.pcs[t], begun)
    requires s.entries != map[] ==> IsLeast(s.entries, first)
    ensures GoesOn(Step(s, t, first, true), t, begun)
  {
    hide IsTop, IsLeast;
    var pc := s.pcs[t];
    if pc.Count? || pc.Fill? || pc.Peek? || pc.Over? {
      var seen := begun - {pc.p};
      OneLess(begun, pc.p);
      assert seen[pc.p := pc.v] == begun;
      if pc.Fill? {
        FillTop(s.entries, seen, pc.p, pc.v);
      } else if pc.Peek? {
        NotEmpty(s.entries, seen);
        if first >= pc.p {
          SkipTop(s.entries, seen, pc.p, pc.v, first);
        }
      } else if pc.Over? {
        EvictTop(s.entries, seen, pc.p, pc.v, pc.first);
      }
    }
  }

  lemma BeginsOk(s: State, t: Tid, p: real, v: int, begun: map<real, int>)
    requires SoloOk(s, begun) && t in s.pcs && (forall u :: u in s.pcs ==> s.pcs[u].Idle?) && p !in begun
    ensures SoloOk(At(s, t, Count(p, v)), begun[p := v])
  {
    OneMore(begun, p, v);
    assert begun[p := v] - {p} == begun;
    hide IsTop;
    assert At(s, t, Count(p, v)).pcs[t].Count?;
  }

  lemma HonestOk(s: State, s': State, t: Tid, begun: map<real, int>)
    requires SoloOk(s, begun) && HonestStep(s, s', t)
    ensures SoloOk(s', begun) && t in s'.pcs && !(s.pcs[t].Idle? && s'.pcs[t].Count?)
  {
    hide IsTop, IsLeast, UnderWay, SoloOk, GoesOn, Step;
    BusyAlone(s, t, begun);
    var first :| (s.entries != map[] ==> IsLeast(s.entries, first)) && s' == Step(s, t, first, true);
    UpdateGoesOn(s, t, first, begun);
    StepAlone(s, t, first);
    OneUnderWay(s', t, begun);
  }

  lemma BusyAlone(s: State, t: Tid, begun: map<real, int>)
    requires SoloOk(s, begun) && t in s.pcs && !s.pcs[t].Idle?
    ensures UnderWay(s, s.pcs[t], begun) && forall u :: u in s.pcs && u != t ==> s.pcs[u].Idle?
  {
    hide UnderWay, IsTop;
  }

  lemma StepAlone(s: State, t: Tid, first: real)
    requires t in s.pcs && forall u :: u in s.pcs && u != t ==> s.pcs[u].Idle?
    ensures var s' := Step(s, t, first, true); t in s'.pcs && forall u :: u in s'.pcs && u != t ==> s'.pcs[u].Idle?
  {
  }

  lemma OneUnderWay(s: State, t: Tid, begun: map<real, int>)
    requires GoesOn(s, t, begun) && forall u :: u in s.pcs && u != t ==> s.pcs[u].Idle?
    ensures SoloOk(s, begun)
  {
    hide IsTop;
  }

  lemma {:induction false} SoloUpTo(r: Run, n: nat)
    requires IsSolo(r) && n < |r.states|
    ensures SoloOk(r.states[n], Begun(r, n))
  {
    if n == 0 {
      assert r.states[0].entries == map[] && Begun(r, 0) == map[];
    } else {
      SoloUpTo(r, n - 1);
      var s, s', t, begun := r.states[n - 1], r.states[n - 1 + 1], r.actors[n - 1], Begun(r, n - 1);
      hide SoloOk, HonestStep, IsSolo;
      if HonestStep(s, s', t) {
        HonestOk(s, s', t, begun);
        StaysBegun(s, s', t);
      } else {
        var p, v :| p !in begun && s' == At(s, t, Count(p, v));
        BeginsOk(s, t, p, v, begun);
      }
    }
  }

  lemma StaysBegun(s: State, s': State, t: Tid)
    requires HonestStep(s, s', t)
    ensures !s.pcs[t].Idle?
  {
  }

  /**
   * In any run whose updates do not overlap, the entries between updates are exactly the top
   * min(n, 1028) by priority of all n updates begun.
   */
  lemma TopBetweenUpdates(r: Run, n: nat)
    requires IsSolo(r) && n < |r.states| && forall t :: t in r.states[n].pcs ==> r.states[n].pcs[t].Idle?
    ensures IsTop(r.states[n].entries, Begun(r, n)) && r.states[n].count == |Begun(r, n)|
  {
    SoloUpTo(r, n);
  }

  /** Such a run is one of the reservoir's. */
  lemma SoloIsRun(r: Run)
    requires IsSolo(r)
    ensures IsRun(r)
  {
    forall i | 0 <= i < |r.actors| ensures Next(r.states[i], r.states[i + 1], r.actors[i]) {
      if !AloneBegins(r.states[i], r.states[i + 1], r.actors[i], Begun(r, i)) {
        assert HonestStep(r.states[i], r.states[i + 1], r.actors[i]);
      }
    }
  }

  class ExponentialReservoir {
    var data: map<real, int>
    var count: nat
    ghost var seen: map<real, int>

    ghost predicate Valid()
      reads this
    {
      IsTop(data, seen) && count == |seen|
    }

    constructor ()
      ensures Valid() && seen == map[]
    {
      data := map[];
      count := 0;
      seen := map[];
    }

    /** The smallest key, by walking the entries. */
    method FirstKey() returns (k: real)
      requires data != map[]
      ensures IsLeast(data, k)
    {
      var rest := data.Keys;
      assert rest == {} ==> data == map[];
      Inhabited(rest);
      k :| k in rest;
      rest := rest - {k};
      while rest != {}
        invariant rest <= data.Keys && k in data && forall q :: q in data && q !in rest ==> k <= q
        decreases |rest|
      {
        Inhabited(rest);
        var q :| q in rest;
        if q < k {
          k := q;
        }
        rest := rest - {q};
      }
    }

    method InsertEntry(p: real, v: int) returns (fresh_: bool)
      modifies this`data
      ensures fresh_ == (p !in old(data)) && data == if fresh_ then old(data)[p := v] else old(data)
    {
      fresh_ := p !in data;
      if fresh_ {
        data := data[p := v];
      }
    }

    method Erase(p: real) returns (hit: bool)
      modifies this`data
      ensures hit == (p in old(data)) && data == old(data) - {p}
    {
      hit := p in data;
      data := data - {p};
    }

    /** update, with a priority not seen before: the reservoir keeps exactly the top entries of all seen. */
    method Update(priority: real, value: int)
      requires Valid() && priority !in seen
      modifies this
      ensures Valid() && seen == old(seen)[priority := value]
    {
      hide IsTop, IsLeast;
      OneMore(seen, priority, value);
      ghost var after := seen[priority := value];
      var n := count;
      count := count + 1;
      if n < SIZE {
        FillTop(data, seen, priority, value);
        var ok := InsertEntry(priority, value);
        assert IsTop(data, after);
      } else {
        NotEmpty(data, seen);
        var first := FirstKey();
        if first < priority {
          EvictTop(data, seen, priority, value, first);
          var ok := InsertEntry(priority, value);
          assert ok;
          if ok {
            var hit := Erase(first);
            assert hit; // alone, the first erase succeeds and is not repeated
          }
        } else {
          SkipTop(data, seen, priority, value, first);
        }
      }
      seen := after;
    }
  }
}
