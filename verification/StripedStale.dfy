/**
 * A run in which an add goes through a table that has been deleted: it installed the first
 * table, so it does not reload; another add grows the table first, and grows it again; and
 * the table in between, which no slot names, is deleted.
 */
module StripedStale {
  import opened Words
  import C = Striped64
  import CS = StripedSafety
  import T = StripedTables
  import SS = StripedSlabs
  import S = StripedStorage
  import opened StripedHazard

  // ---------------------------------------------------------------- reaching a state

  ghost predicate Reachable(w: World)
    reads {}
  {
    exists states: seq<World> :: IsRun(states) && states[|states| - 1] == w
  }

  lemma ReachNext(w: World, w': World)
    requires Reachable(w) && Next(w, w')
    ensures Reachable(w')
  {
    hide Next, Init;
    var states: seq<World> :| IsRun(states) && states[|states| - 1] == w;
    var more := states + [w'];
    assert IsRun(more) && more[|more| - 1] == w';
  }

  lemma ReachInv(w: World)
    requires Reachable(w)
    ensures Inv(w)
  {
    hide Inv, Init, Next;
    var states: seq<World> :| IsRun(states) && states[|states| - 1] == w;
    RunInv(states, |states| - 1);
  }

  // ---------------------------------------------------------------- what a run needs to know of a state

  /**
   * `x` is the value of cell 0 and `k` the number of cells; every hash code is 0, so that
   * every thread meets every other at cell 0.
   */
  datatype Scene = Scene(base: int, x: int, k: nat, stripes: Option<C.Table>, pcs: map<Tid, C.Pc>,
      holds: map<Tid, Hold>)

  ghost predicate Shows(c: C.State, sc: Scene)
    reads {}
  {
    && c.base == sc.base && |c.cells| == sc.k && (sc.k > 0 ==> c.cells[0] == sc.x) && c.stripes == sc.stripes
    && c.locals.Keys == sc.pcs.Keys && forall u :: u in sc.pcs ==> c.locals[u].pc == sc.pcs[u] && c.locals[u].hash == 0
  }

  ghost predicate Is(w: World, sc: Scene)
    reads {}
  {
    Reachable(w) && Shows(w.j.c, sc) && w.holds == sc.holds && w.j.gone == {}
  }

  function Put(sc: Scene, u: Tid, pc: C.Pc): Scene
    reads {}
  {
    sc.(pcs := sc.pcs[u := pc])
  }

  function Slot(sc: Scene, u: Tid, slot: Option<C.Table>): Scene
    requires u in sc.holds
    reads {}
  {
    sc.(holds := sc.holds[u := sc.holds[u].(slot := slot)])
  }

  /** The next step of u; between calls, add(1). */
  function After(sc: Scene, u: Tid): Scene
    requires u in sc.pcs && u in sc.holds
    reads {}
  {
    match sc.pcs[u]
    case Idle => Put(sc, u, C.Start(1)).(holds := sc.holds[u := Hold(sc.holds[u].slot, false)])
    case Start(v) => Put(sc, u, if sc.stripes.None? then C.BaseLoad(v) else C.Guard(v, C.Fast))
    case BaseLoad(v) => Put(sc, u, C.BaseCas(v, sc.base))
    case BaseCas(v, seen) =>
      if sc.base == seen then Put(sc.(base := seen + v), u, C.Idle) else Put(sc, u, C.Top(v, C.Slow(false, true), None))
    case Guard(v, mode) => Slot(Put(sc, u, C.Recheck(v, mode, sc.stripes)), u, sc.stripes)
    case Recheck(v, mode, hand) =>
      Put(sc, u, if sc.stripes == hand && hand.Some? then C.CellLoad(v, mode, hand.value) else C.Guard(v, mode))
    case CellLoad(v, mode, cur) => Put(sc, u, C.CellCas(v, mode, cur, sc.x))
    case CellCas(v, mode, cur, seen) =>
      if sc.x == seen then Slot(Put(sc.(x := seen + v), u, C.Idle), u, None)
      else if mode.Fast? then Put(sc, u, C.Top(v, C.Slow(false, true), Some(cur)))
      else if mode.contended && |cur| < C.STRIPE_LIMIT then
        Put(sc.(k := sc.k + |cur|), u, C.Grow(v, mode, cur, cur + C.Range(sc.k, |cur|)))
      else Put(sc, u, C.Top(v, mode.(contended := true), Some(cur)))
    case Top(v, mode, hand) =>
      if mode.Fast? then sc
      else if hand.None? then
        var made := C.Range(sc.k, 2);
        Slot(Put(sc.(k := sc.k + 2, x := if sc.k == 0 then 0 else sc.x), u, C.Create(v, mode, made)), u, Some(made))
      else Put(sc, u, if mode.load then C.Guard(v, mode) else C.CellLoad(v, mode, hand.value))
    case Create(v, mode, made) =>
      if mode.Fast? then sc
      else if sc.stripes.None? then Put(sc.(stripes := Some(made)), u, C.CellLoad(v, mode.(load := false), made))
      else Put(sc, u, C.Top(v, mode, Some(made)))
    case Grow(v, mode, cur, next) =>
      if sc.stripes == Some(cur) then Put(sc.(stripes := Some(next)), u, C.Top(v, mode, Some(cur)))
      else
        var lost := sc.holds[u].lost || (mode.Slow? && !mode.load);
        Put(sc, u, C.Top(v, mode, sc.stripes)).(holds := sc.holds[u := sc.holds[u].(lost := lost)])
    case _ => sc
  }

  /** A table in use begins with cell 0. */
  predicate AtZero(pc: C.Pc)
    reads {}
  {
    C.Used(pc).Some? ==> |C.Used(pc).value| > 0 && C.Used(pc).value[0] == 0
  }

  predicate Adds(pc: C.Pc)
    reads {}
  {
    !pc.ReadBase? && !pc.ReadTable? && !pc.ReadCheck? && !pc.ReadCell? && !pc.Read?
    && (pc.Top? || pc.Create? ==> pc.mode.Slow?)
  }

  /** The counter's step is the scene's. */
  lemma WorkScene(c: C.State, sc: Scene, u: Tid)
    requires u in sc.pcs && u in sc.holds && Adds(sc.pcs[u]) && !sc.pcs[u].Idle? && AtZero(sc.pcs[u])
    requires C.CanWork(c, u) && Shows(c, sc)
    ensures var c', sc' := C.Work(c, u, 0), After(sc, u);
            && u in c'.locals && Shows(c', sc') && sc'.holds == sc.holds[u := HoldAfter(c, c', u, sc.holds[u])]
  {
    hide Shows;
    ShowsOne(c, sc, u);
    if sc.pcs[u].CellLoad? || sc.pcs[u].CellCas? {
      CellOne(c, sc, u);
    } else if sc.pcs[u].Top? || sc.pcs[u].Create? || sc.pcs[u].Grow? {
      TableOne(c, sc, u);
    } else {
      OtherOne(c, sc, u);
    }
    hide C.Work, After, HoldAfter;
    ShowsNext(c, C.Work(c, u, 0), sc, After(sc, u), u);
  }

  lemma ShowsOne(c: C.State, sc: Scene, u: Tid)
    requires Shows(c, sc) && u in sc.pcs
    ensures u in c.locals && c.locals[u].pc == sc.pcs[u] && c.locals[u].hash == 0
    ensures c.base == sc.base && |c.cells| == sc.k && (sc.k > 0 ==> c.cells[0] == sc.x) && c.stripes == sc.stripes
  {
  }

  lemma ShowsNext(c: C.State, c': C.State, sc: Scene, sc': Scene, u: Tid)
    requires Shows(c, sc) && u in sc.pcs && u in c'.locals && u in sc'.pcs
    requires c'.base == sc'.base && |c'.cells| == sc'.k && (sc'.k > 0 ==> c'.cells[0] == sc'.x)
    requires c'.stripes == sc'.stripes && c'.locals[u].pc == sc'.pcs[u] && c'.locals[u].hash == 0
    requires c'.locals == c.locals[u := c'.locals[u]] && sc'.pcs == sc.pcs[u := sc'.pcs[u]]
    ensures Shows(c', sc')
  {
  }

  /** What a step of u leaves in the counter is what it leaves in the scene. */
  ghost predicate Alike(c: C.State, c': C.State, sc: Scene, sc': Scene, u: Tid)
    requires u in c.locals && u in c'.locals && u in sc.pcs && u in sc.holds
    reads {}
  {
    && c'.base == sc'.base && |c'.cells| == sc'.k && (sc'.k > 0 ==> c'.cells[0] == sc'.x)
    && c'.stripes == sc'.stripes && u in sc'.pcs && c'.locals[u].pc == sc'.pcs[u] && c'.locals[u].hash == 0
    && c'.locals == c.locals[u := c'.locals[u]] && sc'.pcs == sc.pcs[u := sc'.pcs[u]]
    && sc'.holds == sc.holds[u := HoldAfter(c, c', u, sc.holds[u])]
  }

  lemma CellOne(c: C.State, sc: Scene, u: Tid)
    requires u in sc.pcs && u in sc.holds && Adds(sc.pcs[u]) && !sc.pcs[u].Idle? && AtZero(sc.pcs[u])
    requires C.CanWork(c, u) && c.locals[u].pc == sc.pcs[u] && c.locals[u].hash == 0
    requires c.base == sc.base && |c.cells| == sc.k && (sc.k > 0 ==> c.cells[0] == sc.x) && c.stripes == sc.stripes
    requires sc.pcs[u].CellLoad? || sc.pcs[u].CellCas?
    ensures u in C.Work(c, u, 0).locals && Alike(c, C.Work(c, u, 0), sc, After(sc, u), u)
  {
    assert C.Cell(c, u, c.locals[u].pc.cur) == 0;
  }

  lemma TableOne(c: C.State, sc: Scene, u: Tid)
    requires u in sc.pcs && u in sc.holds && Adds(sc.pcs[u]) && !sc.pcs[u].Idle? && AtZero(sc.pcs[u])
    requires C.CanWork(c, u) && c.locals[u].pc == sc.pcs[u] && c.locals[u].hash == 0
    requires c.base == sc.base && |c.cells| == sc.k && (sc.k > 0 ==> c.cells[0] == sc.x) && c.stripes == sc.stripes
    requires sc.pcs[u].Top? || sc.pcs[u].Create? || sc.pcs[u].Grow?
    ensures u in C.Work(c, u, 0).locals && Alike(c, C.Work(c, u, 0), sc, After(sc, u), u)
  {
  }

  lemma OtherOne(c: C.State, sc: Scene, u: Tid)
    requires u in sc.pcs && u in sc.holds && Adds(sc.pcs[u]) && !sc.pcs[u].Idle? && AtZero(sc.pcs[u])
    requires C.CanWork(c, u) && c.locals[u].pc == sc.pcs[u] && c.locals[u].hash == 0
    requires c.base == sc.base && |c.cells| == sc.k && (sc.k > 0 ==> c.cells[0] == sc.x) && c.stripes == sc.stripes
    requires !sc.pcs[u].CellLoad? && !sc.pcs[u].CellCas?
    requires !sc.pcs[u].Top? && !sc.pcs[u].Create? && !sc.pcs[u].Grow?
    ensures u in C.Work(c, u, 0).locals && Alike(c, C.Work(c, u, 0), sc, After(sc, u), u)
  {
  }

  // ---------------------------------------------------------------- the run, scene by scene

  ghost predicate Reached(sc: Scene)
    reads {}
  {
    exists w :: Is(w, sc)
  }

  lemma InvOf(w: World, u: Tid)
    requires Inv(w) && u in w.j.c.locals
    ensures SS.Inv(w.j) && C.Inv(w.j.c) && C.CanWork(w.j.c, u) && u in w.holds
  {
    CS.CanAlwaysWork(w.j.c, u);
  }

  lemma Follow(w: World, c': C.State, u: Tid) returns (w': World)
    requires Reachable(w) && u in w.j.c.locals && C.Next(w.j.c, c', u) && u in c'.locals
    ensures Reachable(w') && w'.j.c == c' && u in w.holds && w'.j.gone == w.j.gone
    ensures w'.holds == w.holds[u := HoldAfter(w.j.c, c', u, w.holds[u])]
  {
    ReachInv(w);
    InvOf(w, u);
    hide Inv, SS.Inv, C.Inv, C.CanWork, C.Next, Reachable, HoldAfter;
    var j' := SS.TablesFollow(w.j, c', u);
    StepFacts(w.j, j', u);
    w' := World(j', w.holds[u := HoldAfter(w.j.c, c', u, w.holds[u])]);
    hide SS.ThreadStep, SS.TableStep;
    assert ThreadStep(w, w', u);
    ReachNext(w, w');
  }

  lemma ActIdle(w: World, sc: Scene, u: Tid)
    requires Is(w, sc) && u in sc.pcs && u in sc.holds && sc.pcs[u].Idle?
    ensures Reached(After(sc, u))
  {
    hide Reachable, Inv;
    ReachInv(w);
    InvKeys(w);
    var c' := C.InvokeAdd(w.j.c, u, 1);
    assert C.Next(w.j.c, c', u);
    hide C.Next;
    var w' := Follow(w, c', u);
    assert Is(w', After(sc, u));
  }

  lemma ActWork(w: World, sc: Scene, u: Tid)
    requires Is(w, sc) && u in sc.pcs && u in sc.holds && !sc.pcs[u].Idle? && Adds(sc.pcs[u]) && AtZero(sc.pcs[u])
    ensures Reached(After(sc, u))
  {
    hide Reachable, Inv, C.Inv, SS.Inv, C.CanWork, Shows, C.Work, After, HoldAfter, AtZero, C.Next;
    ShowsOne(w.j.c, sc, u);
    ReachInv(w);
    InvOf(w, u);
    WorkScene(w.j.c, sc, u);
    WorkIsNext(w.j.c, u);
    var w' := Follow(w, C.Work(w.j.c, u, 0), u);
    assert Is(w', After(sc, u));
  }

  lemma WorkIsNext(c: C.State, u: Tid)
    requires C.CanWork(c, u) && !c.locals[u].pc.Idle? && !c.locals[u].pc.Read?
    ensures C.Next(c, C.Work(c, u, 0), u)
  {
    hide C.Work;
  }

  lemma InvKeys(w: World)
    requires Inv(w)
    ensures w.holds.Keys == w.j.c.locals.Keys
  {
  }

  lemma Act(sc: Scene, u: Tid) returns (sc': Scene)
    requires Reached(sc) && u in sc.pcs && u in sc.holds && Adds(sc.pcs[u]) && AtZero(sc.pcs[u])
    ensures sc' == After(sc, u) && Reached(sc')
  {
    hide Is, After;
    sc' := After(sc, u);
    var w :| Is(w, sc);
    if sc.pcs[u].Idle? {
      ActIdle(w, sc, u);
    } else {
      ActWork(w, sc, u);
    }
  }

  const A: Tid := 1
  const B: Tid := 2
  const D: Tid := 3

  const FIRST: C.Table := [0, 1]
  const SECOND: C.Table := [0, 1, 4, 5]
  const THIRD: C.Table := [0, 1, 4, 5, 6, 7, 8, 9]

  /** A scene in which D is between calls. */
  function At(base: int, x: int, k: nat, stripes: Option<C.Table>, a: C.Pc, b: C.Pc, ha: Hold, hb: Hold): Scene
    reads {}
  {
    Scene(base, x, k, stripes, map[A := a, B := b, D := C.Idle], map[A := ha, B := hb, D := Hold(None, false)])
  }

  const FREE := Hold(None, false)

  /** D comes to hold the current table. */
  lemma BumpBegins(sc: Scene, base: int, x: int, k: nat, table: C.Table, a: C.Pc, b: C.Pc, ha: Hold, hb: Hold)
      returns (s: Scene)
    requires Reached(sc) && sc == At(base, x, k, Some(table), a, b, ha, hb)
    ensures Reached(s)
    ensures s == sc.(pcs := sc.pcs[D := C.Recheck(1, C.Fast, Some(table))],
                     holds := map[A := ha, B := hb, D := Hold(Some(table), false)])
  {
    hide Reached;
    s := Act(sc, D);
    s := Act(s, D);
    s := Act(s, D);
  }

  /** D adds 1 to cell 0, start to finish. */
  lemma Bump(sc: Scene, base: int, x: int, k: nat, table: C.Table, a: C.Pc, b: C.Pc, ha: Hold, hb: Hold)
    requires Reached(sc) && sc == At(base, x, k, Some(table), a, b, ha, hb) && |table| > 0 && table[0] == 0
    ensures Reached(At(base, x + 1, k, Some(table), a, b, ha, hb))
  {
    hide Reached;
    var named := map[A := ha, B := hb, D := Hold(Some(table), false)];
    var s := BumpBegins(sc, base, x, k, table, a, b, ha, hb);
    s := Act(s, D);
    s := Act(s, D);
    assert s == sc.(pcs := sc.pcs[D := C.CellCas(1, C.Fast, table, x)], holds := named);
    s := Act(s, D);
    assert s == At(base, x + 1, k, Some(table), a, b, ha, hb);
  }

  const PLAIN := C.Slow(false, false)
  const AGAIN := C.Slow(true, false)
  const RELOAD := C.Slow(false, true)
  const MORE := C.Slow(true, true)

  const NAMES_FIRST := Hold(Some(FIRST), false)
  const LOST := Hold(Some(FIRST), true)

  /** D adds to the base between A's load and compare-exchange of it. */
  lemma Base()
    requires Reached(At(0, 0, 0, None, C.Idle, C.Idle, FREE, FREE))
    ensures Reached(At(1, 0, 0, None, C.BaseCas(1, 0), C.Idle, FREE, FREE))
  {
    hide Reached;
    var s := At(0, 0, 0, None, C.Idle, C.Idle, FREE, FREE);
    s := Act(s, A);
    s := Act(s, A);
    s := Act(s, A);
    assert s == At(0, 0, 0, None, C.BaseCas(1, 0), C.Idle, FREE, FREE);
    s := Act(s, D);
    s := Act(s, D);
    s := Act(s, D);
    s := Act(s, D);
    assert s == At(1, 0, 0, None, C.BaseCas(1, 0), C.Idle, FREE, FREE);
  }

  /** So A goes the slow way and installs the first table. */
  lemma Install()
    requires Reached(At(1, 0, 0, None, C.BaseCas(1, 0), C.Idle, FREE, FREE))
    ensures Reached(At(1, 0, 2, Some(FIRST), C.CellLoad(1, PLAIN, FIRST), C.Idle, NAMES_FIRST, FREE))
  {
    hide Reached;
    var s := At(1, 0, 0, None, C.BaseCas(1, 0), C.Idle, FREE, FREE);
    s := Act(s, A);
    s := Act(s, A);
    assert C.Range(0, 2) == FIRST;
    assert s == At(1, 0, 2, None, C.Create(1, RELOAD, FIRST), C.Idle, NAMES_FIRST, FREE);
    s := Act(s, A);
    assert s == At(1, 0, 2, Some(FIRST), C.CellLoad(1, PLAIN, FIRST), C.Idle, NAMES_FIRST, FREE);
  }

  /** A fails twice at its cell, and makes a table of four cells. */
  lemma Contend()
    requires Reached(At(1, 0, 2, Some(FIRST), C.CellLoad(1, PLAIN, FIRST), C.Idle, NAMES_FIRST, FREE))
    ensures Reached(At(1, 2, 4, Some(FIRST), C.Grow(1, AGAIN, FIRST, [0, 1, 2, 3]), C.Idle, NAMES_FIRST, FREE))
  {
    hide Reached;
    var s := At(1, 0, 2, Some(FIRST), C.CellLoad(1, PLAIN, FIRST), C.Idle, NAMES_FIRST, FREE);
    s := Act(s, A);
    assert s == At(1, 0, 2, Some(FIRST), C.CellCas(1, PLAIN, FIRST, 0), C.Idle, NAMES_FIRST, FREE);
    Bump(s, 1, 0, 2, FIRST, C.CellCas(1, PLAIN, FIRST, 0), C.Idle, NAMES_FIRST, FREE);
    s := At(1, 1, 2, Some(FIRST), C.CellCas(1, PLAIN, FIRST, 0), C.Idle, NAMES_FIRST, FREE);
    s := Act(s, A);
    assert s == At(1, 1, 2, Some(FIRST), C.Top(1, AGAIN, Some(FIRST)), C.Idle, NAMES_FIRST, FREE);
    s := Act(s, A);
    s := Act(s, A);
    assert s == At(1, 1, 2, Some(FIRST), C.CellCas(1, AGAIN, FIRST, 1), C.Idle, NAMES_FIRST, FREE);
    Bump(s, 1, 1, 2, FIRST, C.CellCas(1, AGAIN, FIRST, 1), C.Idle, NAMES_FIRST, FREE);
    s := At(1, 2, 2, Some(FIRST), C.CellCas(1, AGAIN, FIRST, 1), C.Idle, NAMES_FIRST, FREE);
    s := Act(s, A);
    assert FIRST + C.Range(2, 2) == [0, 1, 2, 3];
    assert s == At(1, 2, 4, Some(FIRST), C.Grow(1, AGAIN, FIRST, [0, 1, 2, 3]), C.Idle, NAMES_FIRST, FREE);
  }

  /** B loads a table and comes to the compare-exchange of its cell, which D has changed in between. */
  lemma Meet(x: int, k: nat, table: C.Table, mode: C.Mode, a: C.Pc, ha: Hold, hb: Hold)
    requires Reached(At(1, x, k, Some(table), a, C.Guard(1, mode), ha, hb)) && |table| > 0 && table[0] == 0
    requires !hb.lost
    ensures Reached(At(1, x + 1, k, Some(table), a, C.CellCas(1, mode, table, x), ha, Hold(Some(table), false)))
  {
    hide Reached;
    var s := At(1, x, k, Some(table), a, C.Guard(1, mode), ha, hb);
    s := Act(s, B);
    s := Act(s, B);
    s := Act(s, B);
    var cas := C.CellCas(1, mode, table, x);
    assert s == At(1, x, k, Some(table), a, cas, ha, Hold(Some(table), false));
    Bump(s, 1, x, k, table, a, cas, ha, Hold(Some(table), false));
  }

  /** B's compare-exchange fails, and it loads the table afresh. */
  lemma Retry(x: int, k: nat, table: C.Table, mode: C.Mode, a: C.Pc, ha: Hold)
    requires Reached(At(1, x + 1, k, Some(table), a, C.CellCas(1, mode, table, x), ha, Hold(Some(table), false)))
    requires |table| > 0 && table[0] == 0 && (mode == C.Fast || mode == RELOAD)
    ensures Reached(At(1, x + 1, k, Some(table), a, C.Guard(1, if mode.Fast? then RELOAD else MORE), ha,
                       Hold(Some(table), false)))
  {
    hide Reached;
    var s := At(1, x + 1, k, Some(table), a, C.CellCas(1, mode, table, x), ha, Hold(Some(table), false));
    var next := if mode.Fast? then RELOAD else MORE;
    s := Act(s, B);
    assert s == At(1, x + 1, k, Some(table), a, C.Top(1, next, Some(table)), ha, Hold(Some(table), false));
    s := Act(s, B);
    assert s == At(1, x + 1, k, Some(table), a, C.Guard(1, next), ha, Hold(Some(table), false));
  }

  /** B fails three times, and grows the table before A does. */
  lemma Overtake()
    requires Reached(At(1, 2, 4, Some(FIRST), C.Grow(1, AGAIN, FIRST, [0, 1, 2, 3]), C.Idle, NAMES_FIRST, FREE))
    ensures Reached(At(1, 5, 6, Some(SECOND), C.Grow(1, AGAIN, FIRST, [0, 1, 2, 3]), C.Top(1, MORE, Some(FIRST)),
                       NAMES_FIRST, NAMES_FIRST))
  {
    hide Reached;
    var a := C.Grow(1, AGAIN, FIRST, [0, 1, 2, 3]);
    var s := At(1, 2, 4, Some(FIRST), a, C.Idle, NAMES_FIRST, FREE);
    s := Act(s, B);
    s := Act(s, B);
    assert s == At(1, 2, 4, Some(FIRST), a, C.Guard(1, C.Fast), NAMES_FIRST, FREE);
    hide At, After;
    Meet(2, 4, FIRST, C.Fast, a, NAMES_FIRST, FREE);
    Retry(2, 4, FIRST, C.Fast, a, NAMES_FIRST);
    Meet(3, 4, FIRST, RELOAD, a, NAMES_FIRST, NAMES_FIRST);
    Retry(3, 4, FIRST, RELOAD, a, NAMES_FIRST);
    Meet(4, 4, FIRST, MORE, a, NAMES_FIRST, NAMES_FIRST);
    GrowSecond(a);
  }

  lemma GrowSecond(a: C.Pc)
    requires Reached(At(1, 5, 4, Some(FIRST), a, C.CellCas(1, MORE, FIRST, 4), NAMES_FIRST, NAMES_FIRST))
    ensures Reached(At(1, 5, 6, Some(SECOND), a, C.Top(1, MORE, Some(FIRST)), NAMES_FIRST, NAMES_FIRST))
  {
    hide Reached;
    var s := At(1, 5, 4, Some(FIRST), a, C.CellCas(1, MORE, FIRST, 4), NAMES_FIRST, NAMES_FIRST);
    s := Act(s, B);
    assert FIRST + C.Range(4, 2) == SECOND;
    assert s == At(1, 5, 6, Some(FIRST), a, C.Grow(1, MORE, FIRST, SECOND), NAMES_FIRST, NAMES_FIRST);
    s := Act(s, B);
    assert s == At(1, 5, 6, Some(SECOND), a, C.Top(1, MORE, Some(FIRST)), NAMES_FIRST, NAMES_FIRST);
  }

  /** A loses its race and takes over the second table without naming it. */
  lemma TakeOver()
    requires Reached(At(1, 5, 6, Some(SECOND), C.Grow(1, AGAIN, FIRST, [0, 1, 2, 3]), C.Top(1, MORE, Some(FIRST)),
                        NAMES_FIRST, NAMES_FIRST))
    ensures Reached(At(1, 5, 6, Some(SECOND), C.CellLoad(1, AGAIN, SECOND), C.Top(1, MORE, Some(FIRST)), LOST,
                       NAMES_FIRST))
  {
    hide Reached;
    var b := C.Top(1, MORE, Some(FIRST));
    var s := At(1, 5, 6, Some(SECOND), C.Grow(1, AGAIN, FIRST, [0, 1, 2, 3]), b, NAMES_FIRST, NAMES_FIRST);
    s := Act(s, A);
    assert s == At(1, 5, 6, Some(SECOND), C.Top(1, AGAIN, Some(SECOND)), b, LOST, NAMES_FIRST);
    s := Act(s, A);
    assert s == At(1, 5, 6, Some(SECOND), C.CellLoad(1, AGAIN, SECOND), b, LOST, NAMES_FIRST);
  }

  /** B grows that table too, and goes on to the third. */
  lemma Outgrow(a: C.Pc)
    requires Reached(At(1, 5, 6, Some(SECOND), a, C.Top(1, MORE, Some(FIRST)), LOST, NAMES_FIRST))
    ensures Reached(At(1, 6, 10, Some(THIRD), a, C.Recheck(1, MORE, Some(THIRD)), LOST, Hold(Some(THIRD), false)))
  {
    hide Reached;
    var s := At(1, 5, 6, Some(SECOND), a, C.Top(1, MORE, Some(FIRST)), LOST, NAMES_FIRST);
    s := Act(s, B);
    assert s == At(1, 5, 6, Some(SECOND), a, C.Guard(1, MORE), LOST, NAMES_FIRST);
    hide At, After;
    Meet(5, 6, SECOND, MORE, a, LOST, NAMES_FIRST);
    GrowThird(a);
    MoveOn(a);
  }

  lemma GrowThird(a: C.Pc)
    requires Reached(At(1, 6, 6, Some(SECOND), a, C.CellCas(1, MORE, SECOND, 5), LOST, Hold(Some(SECOND), false)))
    ensures Reached(At(1, 6, 10, Some(THIRD), a, C.Top(1, MORE, Some(SECOND)), LOST, Hold(Some(SECOND), false)))
  {
    hide Reached;
    var s := At(1, 6, 6, Some(SECOND), a, C.CellCas(1, MORE, SECOND, 5), LOST, Hold(Some(SECOND), false));
    s := Act(s, B);
    assert SECOND + C.Range(6, 4) == THIRD;
    assert s == At(1, 6, 10, Some(SECOND), a, C.Grow(1, MORE, SECOND, THIRD), LOST, Hold(Some(SECOND), false));
    s := Act(s, B);
    assert s == At(1, 6, 10, Some(THIRD), a, C.Top(1, MORE, Some(SECOND)), LOST, Hold(Some(SECOND), false));
  }

  lemma MoveOn(a: C.Pc)
    requires Reached(At(1, 6, 10, Some(THIRD), a, C.Top(1, MORE, Some(SECOND)), LOST, Hold(Some(SECOND), false)))
    ensures Reached(At(1, 6, 10, Some(THIRD), a, C.Recheck(1, MORE, Some(THIRD)), LOST, Hold(Some(THIRD), false)))
  {
    hide Reached;
    var s := At(1, 6, 10, Some(THIRD), a, C.Top(1, MORE, Some(SECOND)), LOST, Hold(Some(SECOND), false));
    s := Act(s, B);
    assert s == At(1, 6, 10, Some(THIRD), a, C.Guard(1, MORE), LOST, Hold(Some(SECOND), false));
    s := Act(s, B);
    assert s == At(1, 6, 10, Some(THIRD), a, C.Recheck(1, MORE, Some(THIRD)), LOST, Hold(Some(THIRD), false));
  }

  // ---------------------------------------------------------------- its beginning and its end

  const NO_TABLES := T.State(None, false, map[], 0, {}, 0, multiset{})

  const NEW_COUNTER :=
    C.State(0, [], None, map[A := C.Local([], 0, C.Idle), B := C.Local([], 0, C.Idle), D := C.Local([], 0, C.Idle)], [])

  const NEW_WORLD :=
    World(SS.Joint(NEW_COUNTER, NO_TABLES, [0], map[], {}), map[A := FREE, B := FREE, D := FREE])

  lemma NoTables()
    ensures T.Inv(NO_TABLES)
  {
  }

  lemma NewCounter()
    ensures C.Init(NEW_COUNTER) && Shows(NEW_COUNTER, At(0, 0, 0, None, C.Idle, C.Idle, FREE, FREE))
  {
  }

  lemma NewWorld()
    ensures Init(NEW_WORLD)
  {
    NoTables();
    NewCounter();
    hide T.Inv, C.Init, Shows;
    assert SS.BoundsOk([0], 0, 0);
  }

  lemma Begin()
    ensures Reached(At(0, 0, 0, None, C.Idle, C.Idle, FREE, FREE))
  {
    NewWorld();
    NewCounter();
    hide Init, C.Init, Shows, Reachable;
    ReachInit(NEW_WORLD);
    assert Is(NEW_WORLD, At(0, 0, 0, None, C.Idle, C.Idle, FREE, FREE));
  }

  lemma ReachInit(w: World)
    requires Init(w)
    ensures Reachable(w)
  {
    hide Init, Next;
    assert IsRun([w]) && [w][|[w]| - 1] == w;
  }

  /** Tables of the same cells are one table. */
  lemma OneTable(j: SS.Joint, m: nat, n: nat)
    requires SS.Inv(j) && m in j.t.tabs && n in j.t.tabs && T.WasInstalled(j.t.tabs[m]) && T.WasInstalled(j.t.tabs[n])
    requires CellsOf(j, m) == CellsOf(j, n)
    ensures m == n
  {
    SS.UnusedName(j.t);
    assert SS.Doubling(j.bounds, j.t.tabs[m].ids) && SS.Doubling(j.bounds, j.t.tabs[n].ids);
    T.TabOkOf(j.t, m);
    T.TabOkOf(j.t, n);
    hide SS.Doubling;
    SS.CellsAreLayout(j.bounds, j.t.tabs[m].ids, 0);
    SS.CellsAreLayout(j.bounds, j.t.tabs[n].ids, 0);
    SameLength(|j.t.tabs[m].ids|, |j.t.tabs[n].ids|);
  }

  lemma SameLength(m: nat, n: nat)
    requires S.Pow2(m) == S.Pow2(n)
    ensures m == n
  {
    if m < n {
      S.Pow2Less(m, n);
    } else if n < m {
      S.Pow2Less(n, m);
    }
  }

  lemma RetireStep(w: World, m: nat) returns (w': World)
    requires Reachable(w) && m in w.j.t.tabs && (w.j.t.tabs[m].role.Old? || w.j.t.tabs[m].role.Retired?)
    ensures Reachable(w') && w'.holds == w.holds && w'.j == w.j.(t := w'.j.t)
    ensures m in w'.j.t.tabs && w'.j.t.tabs[m].role.Retired? && w'.j.t.tabs[m].ids == w.j.t.tabs[m].ids
  {
    w' := w;
    if w.j.t.tabs[m].role.Old? {
      w' := w.(j := w.j.(t := T.Step(w.j.t, T.Retires(m))));
      assert SS.Disposes(w.j.t, T.Retires(m));
      assert TableStep(w, w');
      hide TableStep, Reachable;
      ReachNext(w, w');
    }
  }

  lemma DeleteStep(w: World, m: nat) returns (w': World)
    requires Reachable(w) && w.j.gone == {} && m in w.j.t.tabs && w.j.t.tabs[m].role.Retired? && Scanned(w, m)
    ensures Reachable(w') && w'.j == w.j.(gone := {m}) && w'.holds == w.holds
  {
    w' := w.(j := w.j.(gone := {m}));
    assert SS.TableStep(w.j, w'.j);
    hide SS.TableStep, Scanned, Reachable;
    assert TableStep(w, w');
    ReachNext(w, w');
  }

  lemma NotAlive(j: SS.Joint, m: nat, table: C.Table)
    requires SS.Inv(j) && m in j.gone && m in j.t.tabs && T.WasInstalled(j.t.tabs[m]) && CellsOf(j, m) == table
    ensures !Alive(j, table)
  {
    hide SS.Inv;
    if Alive(j, table) {
      var n :| n in j.t.tabs && n !in j.gone && T.WasInstalled(j.t.tabs[n]) && CellsOf(j, n) == table;
      OneTable(j, m, n);
      assert false;
    }
  }

  lemma JointInv(w: World)
    requires Reachable(w)
    ensures SS.Inv(w.j)
  {
    ReachInv(w);
    hide SS.Inv, Reachable;
  }

  /** A replaced table that no slot in use names can be disavowed and deleted, whoever goes through it. */
  lemma DeleteStale(w: World, u: Tid) returns (w': World)
    requires Reachable(w) && w.j.gone == {} && u in w.j.c.locals && C.Used(w.j.c.locals[u].pc).Some?
    requires w.j.c.stripes != C.Used(w.j.c.locals[u].pc)
    requires forall v :: v in w.j.c.locals && v in w.holds && C.Used(w.j.c.locals[v].pc).Some? ==>
               w.holds[v].slot != C.Used(w.j.c.locals[u].pc)
    ensures Reachable(w') && w'.j.c == w.j.c && w'.holds == w.holds
    ensures !Alive(w'.j, C.Used(w.j.c.locals[u].pc).value)
  {
    hide SS.Inv, Reachable, Alive;
    JointInv(w);
    var m := Replaced(w.j, u);
    var w1 := RetireStep(w, m);
    assert Scanned(w1, m);
    w' := DeleteStep(w1, m);
    JointInv(w');
    NotAlive(w'.j, m, C.Used(w.j.c.locals[u].pc).value);
  }

  /** The table in use, when it is not the installed one. */
  lemma Replaced(j: SS.Joint, u: Tid) returns (m: nat)
    requires SS.Inv(j) && u in j.c.locals && C.Used(j.c.locals[u].pc).Some? && j.c.stripes != C.Used(j.c.locals[u].pc)
    ensures m in j.t.tabs && (j.t.tabs[m].role.Old? || j.t.tabs[m].role.Retired?)
    ensures CellsOf(j, m) == C.Used(j.c.locals[u].pc).value
  {
    SS.UnusedName(j.t);
    var table := C.Used(j.c.locals[u].pc).value;
    assert SS.Named(j.t, j.bounds, table);
    m :| m in j.t.tabs && T.WasInstalled(j.t.tabs[m]) && SS.Cells(j.bounds, j.t.tabs[m].ids) == table;
    assert j.t.tabs[m].role.Installed? ==> j.t.stripes == Some(m);
  }

  /**
   * There is a run that comes to a state in which thread A is about to go through a table that
   * has been deleted, while no slot of any thread named it. Its add has lost a race to grow,
   * as SlotCovers says it must have.
   */
  lemma UsesDeletedTable()
    ensures exists w ::
              && Reachable(w) && A in w.j.c.locals && A in w.holds && w.holds[A].lost
              && w.j.c.locals[A].pc.CellLoad? && !Alive(w.j, w.j.c.locals[A].pc.cur)
              && forall u :: u in w.holds ==> w.holds[u].slot != Some(w.j.c.locals[A].pc.cur)
  {
    Begin();
    hide Reached, At, After;
    Base();
    Install();
    Contend();
    Overtake();
    TakeOver();
    Outgrow(C.CellLoad(1, AGAIN, SECOND));
    TheEnd();
  }

  lemma TheEnd()
    requires Reached(At(1, 6, 10, Some(THIRD), C.CellLoad(1, AGAIN, SECOND), C.Recheck(1, MORE, Some(THIRD)), LOST,
                        Hold(Some(THIRD), false)))
    ensures exists w ::
              && Reachable(w) && A in w.j.c.locals && A in w.holds && w.holds[A].lost
              && w.j.c.locals[A].pc.CellLoad? && !Alive(w.j, w.j.c.locals[A].pc.cur)
              && forall u :: u in w.holds ==> w.holds[u].slot != Some(w.j.c.locals[A].pc.cur)
  {
    hide Reachable, Alive;
    var w :| Is(w, At(1, 6, 10, Some(THIRD), C.CellLoad(1, AGAIN, SECOND), C.Recheck(1, MORE, Some(THIRD)), LOST,
                      Hold(Some(THIRD), false)));
    assert |THIRD| != |SECOND| && |FIRST| != |SECOND|;
    var w' := DeleteStale(w, A);
  }
}