/**
 * The striped counter's one hazard slot a thread, and which tables it keeps. A thread names
 * the table it goes through in its slot, but for one case: an add that installed the first
 * table, and so reloads no more, takes over whatever table beat it in a race to grow.
 */
module StripedHazard {
  import opened Words
  import C = Striped64
  import CS = StripedSafety
  import T = StripedTables
  import SS = StripedSlabs

  /**
   * What a thread's slot names, and whether its add has lost a race to grow when it no
   * longer reloads (`load` is false) (history).
   */
  datatype Hold = Hold(slot: Option<C.Table>, lost: bool)

  /** The slot of u after its step from c to c'. */
  function HoldAfter(c: C.State, c': C.State, u: Tid, h: Hold): Hold
    requires u in c.locals && u in c'.locals
    reads {}
  {
    match c.locals[u].pc
    case Idle => Hold(h.slot, false)
    case Read(_) => Hold(h.slot, false)
    case Guard(_, _) => h.(slot := c.stripes)
    case ReadTable(_) => if c.stripes.Some? then h.(slot := c.stripes) else h
    case Top(_, _, hand) => if hand.None? && c'.locals[u].pc.Create? then h.(slot := Some(c'.locals[u].pc.made)) else h
    case Grow(_, mode, cur, _) => if c.stripes != Some(cur) && mode.Slow? && !mode.load then h.(lost := true) else h
    case CellCas(_, _, _, _) => if c'.locals[u].pc.Idle? then h.(slot := None) else h
    case ReadCell(_, _, _) => if c'.locals[u].pc.Read? then h.(slot := None) else h
    case _ => h
  }

  /** The slot names the table in use if and only if the add has not lost such a race. */
  ghost predicate SlotOk(pc: C.Pc, h: Hold)
    reads {}
  {
    && (C.Used(pc).Some? ==> (h.slot == C.Used(pc) <==> !h.lost))
    && (C.Used(pc).Some? && h.lost ==> h.slot.Some? && |h.slot.value| < |C.Used(pc).value|)
    && (pc.Recheck? ==> h.slot == pc.hand)
    && (pc.Create? ==> h.slot == Some(pc.made))
    && (pc.ReadCheck? ==> h.slot == Some(pc.cur))
    && (h.lost ==> (pc.CellLoad? || pc.CellCas? || pc.Top? || pc.Grow? || pc.Idle?))
    && (h.lost && !pc.Idle? ==> pc.mode.Slow? && !pc.mode.load)
  }

  lemma CasSlot(c: C.State, u: Tid, hash: nat, h: Hold)
    requires C.CanWork(c, u) && c.locals[u].pc.CellCas? && SlotOk(c.locals[u].pc, h)
    ensures u in C.Work(c, u, hash).locals
    ensures SlotOk(C.Work(c, u, hash).locals[u].pc, HoldAfter(c, C.Work(c, u, hash), u, h))
  {
    hide C.Cell, C.Expanded;
  }

  lemma GrowSlot(c: C.State, u: Tid, hash: nat, h: Hold)
    requires C.CanWork(c, u) && c.locals[u].pc.Grow? && SlotOk(c.locals[u].pc, h) && C.PcOk(c, c.locals[u].pc)
    requires c.stripes.Some? && c.locals[u].pc.cur <= c.stripes.value
    ensures u in C.Work(c, u, hash).locals
    ensures SlotOk(C.Work(c, u, hash).locals[u].pc, HoldAfter(c, C.Work(c, u, hash), u, h))
  {
    hide C.TableOk;
    var cur, all := c.locals[u].pc.cur, c.stripes.value;
    if |cur| == |all| {
      assert cur == all;
    }
  }

  lemma OtherSlot(c: C.State, u: Tid, hash: nat, h: Hold)
    requires C.CanWork(c, u) && !c.locals[u].pc.Grow? && !c.locals[u].pc.CellCas?
    requires !c.locals[u].pc.Idle? && !c.locals[u].pc.Read? && SlotOk(c.locals[u].pc, h) && C.PcOk(c, c.locals[u].pc)
    ensures u in C.Work(c, u, hash).locals
    ensures SlotOk(C.Work(c, u, hash).locals[u].pc, HoldAfter(c, C.Work(c, u, hash), u, h))
  {
    hide C.TableOk, C.Cell, C.Expanded;
  }

  lemma SlotStep(c: C.State, c': C.State, u: Tid, h: Hold)
    requires C.Inv(c) && C.Next(c, c', u) && u in c.locals && SlotOk(c.locals[u].pc, h)
    ensures u in c'.locals && SlotOk(c'.locals[u].pc, HoldAfter(c, c', u, h))
  {
    PcOkOf(c, u);
    var pc := c.locals[u].pc;
    hide C.Inv, C.PcOk, C.Work, C.CanWork;
    if !pc.Idle? && !pc.Read? {
      var hash :| c' == C.Work(c, u, hash);
      if pc.CellCas? {
        CasSlot(c, u, hash, h);
      } else if pc.Grow? {
        UsedWithin(c, u);
        GrowSlot(c, u, hash, h);
      } else {
        OtherSlot(c, u, hash, h);
      }
    }
  }

  lemma PcOkOf(c: C.State, u: Tid)
    requires C.Inv(c) && u in c.locals
    ensures C.PcOk(c, c.locals[u].pc)
  {
  }

  lemma UsedWithin(c: C.State, u: Tid)
    requires C.Inv(c) && u in c.locals && C.Used(c.locals[u].pc).Some?
    ensures c.stripes.Some? && C.Used(c.locals[u].pc).value <= c.stripes.value
  {
    assert C.PcOk(c, c.locals[u].pc);
  }

  // ---------------------------------------------------------------- counter, tables and slots

  datatype World = World(j: SS.Joint, holds: map<Tid, Hold>)

  function CellsOf(j: SS.Joint, n: nat): C.Table
    requires n in j.t.tabs
    reads {}
  {
    SS.Cells(j.bounds, j.t.tabs[n].ids)
  }

  /** No slot a thread relies on names table n, as a scan must find before it deletes the table. */
  ghost predicate Scanned(w: World, n: nat)
    requires n in w.j.t.tabs
    reads {}
  {
    forall u :: u in w.j.c.locals && u in w.holds && C.Used(w.j.c.locals[u].pc).Some? ==>
      w.holds[u].slot != Some(CellsOf(w.j, n))
  }

  ghost predicate ThreadStep(w: World, w': World, u: Tid)
    reads {}
  {
    && SS.ThreadStep(w.j, w'.j, u) && u in w.holds && u in w'.j.c.locals
    && w'.holds == w.holds[u := HoldAfter(w.j.c, w'.j.c, u, w.holds[u])]
  }

  /** A table is disavowed or deleted; a table that was installed is deleted only after a scan. */
  ghost predicate TableStep(w: World, w': World)
    reads {}
  {
    && SS.TableStep(w.j, w'.j) && w'.holds == w.holds
    && forall n :: n in w'.j.gone && n !in w.j.gone ==> n in w.j.t.tabs && Scanned(w, n)
  }

  ghost predicate Next(w: World, w': World)
    reads {}
  {
    TableStep(w, w') || exists u :: ThreadStep(w, w', u)
  }

  ghost predicate Init(w: World)
    reads {}
  {
    && SS.Init(w.j) && w.holds.Keys == w.j.c.locals.Keys
    && forall u :: u in w.holds ==> w.holds[u] == Hold(None, false)
  }

  /** The table has not been deleted. */
  ghost predicate Alive(j: SS.Joint, table: C.Table)
    reads {}
  {
    exists m :: m in j.t.tabs && m !in j.gone && T.WasInstalled(j.t.tabs[m]) && CellsOf(j, m) == table
  }

  ghost predicate GoneOk(t: T.State, gone: set<nat>)
    reads {}
  {
    forall n :: n in gone ==> n in t.tabs && T.WasInstalled(t.tabs[n]) && t.stripes != Some(n)
  }

  ghost predicate SlotsOk(w: World)
    reads {}
  {
    && w.holds.Keys == w.j.c.locals.Keys
    && forall u :: u in w.holds ==> SlotOk(w.j.c.locals[u].pc, w.holds[u])
  }

  ghost predicate UsedAlive(w: World)
    reads {}
  {
    forall u :: u in w.j.c.locals && u in w.holds && C.Used(w.j.c.locals[u].pc).Some? && !w.holds[u].lost ==>
      Alive(w.j, C.Used(w.j.c.locals[u].pc).value)
  }

  ghost predicate Inv(w: World)
    reads {}
  {
    SS.Inv(w.j) && SlotsOk(w) && GoneOk(w.j.t, w.j.gone) && UsedAlive(w)
  }

  lemma InitInv(w: World)
    requires Init(w)
    ensures Inv(w)
  {
    SS.InitInv(w.j);
    hide SS.Inv;
  }

  /** The installed table has not been deleted. */
  lemma InstalledAlive(j: SS.Joint)
    requires SS.Inv(j) && GoneOk(j.t, j.gone) && j.c.stripes.Some?
    ensures Alive(j, j.c.stripes.value)
  {
    SS.UnusedName(j.t);
    assert SS.StripesMatch(j);
    var n := j.t.stripes.value;
    assert n in j.t.tabs && n !in j.gone && CellsOf(j, n) == j.c.stripes.value;
  }

  lemma InvParts(j: SS.Joint, u: Tid)
    requires SS.Inv(j) && u in j.c.locals
    ensures T.Inv(j.t) && C.Inv(j.c) && j.t.named !in j.t.tabs && SS.BoundsOk(j.bounds, |j.c.cells|, j.t.slabs)
    ensures j.t.stripes.Some? ==> j.t.stripes.value in j.t.tabs && j.t.tabs[j.t.stripes.value].role.Installed?
    ensures var pc := j.c.locals[u].pc;
            SS.Making(pc) ==> u in j.mine && j.mine[u] in j.t.tabs && j.t.tabs[j.mine[u]].role.Made?
  {
    SS.UnusedName(j.t);
    if SS.Making(j.c.locals[u].pc) {
      assert SS.Makes(j.t, j.bounds, j.c.locals[u].pc, j.mine[u]);
    }
  }

  lemma TakesMoves(j: SS.Joint, c': C.State, u: Tid, ev: T.Event)
    requires u in j.c.locals && SS.Takes(j, c', u, ev) && j.t.named !in j.t.tabs
    requires SS.Making(j.c.locals[u].pc) ==>
               u in j.mine && j.mine[u] in j.t.tabs && j.t.tabs[j.mine[u]].role.Made?
    ensures T.Enabled(j.t, ev) && !ev.Destroys?
    ensures var n, t' := SS.Moved(j.t, ev), T.Step(j.t, ev);
            && (n in j.t.tabs ==> !T.WasInstalled(j.t.tabs[n]))
            && (t'.stripes == j.t.stripes || (t'.stripes == Some(n) && n in j.t.tabs))
  {
  }

  /** What a thread's step does to the tables. */
  lemma ThreadTabs(j: SS.Joint, j': SS.Joint, u: Tid) returns (n: nat)
    requires SS.Inv(j) && SS.ThreadStep(j, j', u)
    ensures SS.TabsStay(j.t, j'.t, n) && (n in j.t.tabs ==> !T.WasInstalled(j.t.tabs[n]))
    ensures j'.t.stripes == j.t.stripes || (j'.t.stripes == Some(n) && n in j.t.tabs)
  {
    InvParts(j, u);
    hide SS.Inv, C.Next, T.Inv, C.Inv;
    if SS.TouchesTables(j.c, j'.c, u) {
      var ev :| SS.Takes(j, j'.c, u, ev) && j'.t == T.Step(j.t, ev);
      TakesMoves(j, j'.c, u, ev);
      hide SS.Takes, T.Enabled, T.Step, SS.TabsStay;
      SS.EventTabs(j.t, ev);
      n := SS.Moved(j.t, ev);
    } else {
      n := j.t.named;
    }
  }

  // ---------------------------------------------------------------- every step

  /** A table that is alive stays so unless it is deleted. */
  lemma AliveStays(j: SS.Joint, j': SS.Joint, n: nat, table: C.Table)
    requires T.Inv(j.t) && SS.TabsStay(j.t, j'.t, n) && SS.BoundsOk(j.bounds, |j.c.cells|, j.t.slabs)
    requires j.bounds <= j'.bounds && Alive(j, table) && (n in j.t.tabs ==> !T.WasInstalled(j.t.tabs[n]))
    requires forall m :: m in j'.gone && m !in j.gone ==> m in j.t.tabs && CellsOf(j, m) != table
    ensures Alive(j', table)
  {
    hide T.Inv, SS.BoundsOk;
    var m :| m in j.t.tabs && m !in j.gone && T.WasInstalled(j.t.tabs[m]) && CellsOf(j, m) == table;
    SS.KnownIds(j.t, j.bounds, |j.c.cells|, j'.bounds, m);
    assert m in j'.t.tabs && m !in j'.gone && CellsOf(j', m) == table;
  }

  lemma GoneStays(t: T.State, t': T.State, n: nat, gone: set<nat>)
    requires GoneOk(t, gone) && SS.TabsStay(t, t', n) && (n in t.tabs ==> !T.WasInstalled(t.tabs[n]))
    requires t'.stripes == t.stripes || (t'.stripes == Some(n) && n in t.tabs)
    ensures GoneOk(t', gone)
  {
  }

  lemma ThreadAlive(w: World, w': World, u: Tid, n: nat)
    requires UsedAlive(w) && T.Inv(w.j.t) && SS.BoundsOk(w.j.bounds, |w.j.c.cells|, w.j.t.slabs)
    requires SS.TabsStay(w.j.t, w'.j.t, n) && (n in w.j.t.tabs ==> !T.WasInstalled(w.j.t.tabs[n]))
    requires u in w.j.c.locals && u in w'.j.c.locals && u in w.holds && SS.StepShape(w.j.c, w'.j.c, u)
    requires w'.holds == w.holds[u := HoldAfter(w.j.c, w'.j.c, u, w.holds[u])]
    requires SS.Inv(w'.j) && GoneOk(w'.j.t, w'.j.gone) && w.j.bounds <= w'.j.bounds && w'.j.gone == w.j.gone
    ensures UsedAlive(w')
  {
    hide SS.Inv, SS.TabsStay, Alive, T.Inv, SS.BoundsOk, GoneOk;
    forall v | v in w'.j.c.locals && v in w'.holds && C.Used(w'.j.c.locals[v].pc).Some? && !w'.holds[v].lost
      ensures Alive(w'.j, C.Used(w'.j.c.locals[v].pc).value)
    {
      var table := C.Used(w'.j.c.locals[v].pc);
      if C.Used(w.j.c.locals[v].pc) == table {
        assert !w.holds[v].lost;
        AliveStays(w.j, w'.j, n, table.value);
      } else {
        InstalledAlive(w'.j);
      }
    }
  }

  lemma StepFacts(j: SS.Joint, j': SS.Joint, u: Tid)
    requires SS.ThreadStep(j, j', u)
    ensures u in j.c.locals && C.Next(j.c, j'.c, u) && j'.gone == j.gone && j.bounds <= j'.bounds
  {
    hide C.Next, SS.Takes, T.Step;
  }

  lemma ThreadKeepsInv(w: World, w': World, u: Tid)
    requires Inv(w) && ThreadStep(w, w', u)
    ensures Inv(w')
  {
    hide SS.ThreadStep, SS.Inv, SS.TabsStay, C.Next, T.Inv, C.Inv, SS.BoundsOk, GoneOk, SlotOk, HoldAfter, UsedAlive;
    StepFacts(w.j, w'.j, u);
    SS.ThreadKeepsInv(w.j, w'.j, u);
    var n := ThreadTabs(w.j, w'.j, u);
    GoneStays(w.j.t, w'.j.t, n, w.j.gone);
    InvParts(w.j, u);
    SlotStep(w.j.c, w'.j.c, u, w.holds[u]);
    SS.StepHasShape(w.j.c, w'.j.c, u);
    ThreadAlive(w, w', u, n);
    ShapeOthers(w.j.c, w'.j.c, u);
  }

  lemma ShapeOthers(c: C.State, c': C.State, u: Tid)
    requires u in c.locals && u in c'.locals && SS.StepShape(c, c', u)
    ensures c'.locals == c.locals[u := c'.locals[u]]
  {
  }

  lemma TableKeepsInv(w: World, w': World)
    requires Inv(w) && TableStep(w, w')
    ensures Inv(w')
  {
    SS.TableKeepsInv(w.j, w'.j);
    var n := TableTabs(w.j, w'.j);
    hide SS.Inv, SS.TabsStay, T.Inv, C.Inv, SS.BoundsOk, GoneOk, SlotOk, Alive;
    forall v | v in w'.j.c.locals && v in w'.holds && C.Used(w'.j.c.locals[v].pc).Some? && !w'.holds[v].lost
      ensures Alive(w'.j, C.Used(w'.j.c.locals[v].pc).value)
    {
      var table := C.Used(w'.j.c.locals[v].pc);
      assert SlotOk(w.j.c.locals[v].pc, w.holds[v]);
      SlotNames(w.j.c.locals[v].pc, w.holds[v]);
      AliveStays(w.j, w'.j, n, table.value);
    }
  }

  lemma SlotNames(pc: C.Pc, h: Hold)
    requires SlotOk(pc, h) && C.Used(pc).Some? && !h.lost
    ensures h.slot == C.Used(pc)
  {
  }

  lemma TableTabs(j: SS.Joint, j': SS.Joint) returns (n: nat)
    requires SS.Inv(j) && SS.TableStep(j, j') && GoneOk(j.t, j.gone)
    ensures T.Inv(j.t) && SS.BoundsOk(j.bounds, |j.c.cells|, j.t.slabs)
    ensures SS.TabsStay(j.t, j'.t, n) && (n in j.t.tabs ==> !T.WasInstalled(j.t.tabs[n])) && GoneOk(j'.t, j'.gone)
  {
    hide GoneOk, T.Inv, SS.BoundsOk, SS.TabsStay, T.Step, T.Enabled, T.WasInstalled;
    assert T.Inv(j.t) && SS.BoundsOk(j.bounds, |j.c.cells|, j.t.slabs);
    hide SS.Inv;
    if j'.gone == j.gone {
      var ev :| SS.Disposes(j.t, ev) && j'.t == T.Step(j.t, ev);
      n := EventGone(j, j', ev);
    } else {
      n := j.t.named;
      OneMoreGone(j, j');
    }
  }

  lemma OneMoreGone(j: SS.Joint, j': SS.Joint)
    requires T.Inv(j.t) && SS.TableStep(j, j') && j'.gone != j.gone && GoneOk(j.t, j.gone)
    ensures SS.TabsStay(j.t, j'.t, j.t.named) && j.t.named !in j.t.tabs && GoneOk(j'.t, j'.gone)
  {
    hide SS.Disposes, T.Step, T.WasInstalled;
    SS.UnusedName(j.t);
    RetiredIsNot(j.t);
    hide T.Inv;
  }

  lemma RetiredIsNot(t: T.State)
    requires T.Inv(t)
    ensures forall n :: n in t.tabs && t.tabs[n].role.Retired? ==> T.WasInstalled(t.tabs[n]) && t.stripes != Some(n)
  {
  }

  lemma EventGone(j: SS.Joint, j': SS.Joint, ev: T.Event) returns (n: nat)
    requires T.Inv(j.t) && SS.Disposes(j.t, ev) && j'.t == T.Step(j.t, ev) && GoneOk(j.t, j.gone) && j'.gone == j.gone
    ensures SS.TabsStay(j.t, j'.t, n) && (n in j.t.tabs ==> !T.WasInstalled(j.t.tabs[n])) && GoneOk(j'.t, j'.gone)
  {
    SS.TableMoves(j.t, ev);
    SS.EventTabs(j.t, ev);
    n := SS.Moved(j.t, ev);
    hide GoneOk, T.Inv, T.Step, SS.TabsStay, T.WasInstalled;
    GoneStays(j.t, j'.t, n, j.gone);
  }

  // ---------------------------------------------------------------- whole runs

  ghost predicate IsRun(states: seq<World>)
    reads {}
  {
    && |states| > 0 && Init(states[0])
    && forall i {:trigger states[i]} :: 0 <= i < |states| - 1 ==> Next(states[i], states[i + 1])
  }

  lemma {:induction false} RunInv(states: seq<World>, n: nat)
    requires IsRun(states) && n < |states|
    ensures Inv(states[n])
  {
    hide Inv, Init, TableStep, ThreadStep;
    if n == 0 {
      InitInv(states[0]);
    } else {
      RunInv(states, n - 1);
      var i := n - 1;
      assert Next(states[i], states[i + 1]);
      if TableStep(states[i], states[i + 1]) {
        TableKeepsInv(states[i], states[i + 1]);
      } else {
        var u :| ThreadStep(states[i], states[i + 1], u);
        ThreadKeepsInv(states[i], states[i + 1], u);
      }
    }
  }

  /**
   * In every run, the slot of a thread names the table it uses if and only if its add has
   * not, with load false, lost a race to grow. A table its slot names has not been deleted.
   */
  lemma SlotCovers(states: seq<World>, n: nat, u: Tid)
    requires IsRun(states) && n < |states| && u in states[n].j.c.locals
    requires C.Used(states[n].j.c.locals[u].pc).Some?
    ensures u in states[n].holds
    ensures var w, table := states[n], C.Used(states[n].j.c.locals[u].pc);
            && (w.holds[u].slot == table <==> !w.holds[u].lost)
            && (w.holds[u].slot == table ==> Alive(w.j, table.value))
  {
    RunInv(states, n);
    assert SlotOk(states[n].j.c.locals[u].pc, states[n].holds[u]);
  }
}