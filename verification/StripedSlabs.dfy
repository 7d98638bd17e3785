/**
 * The striped counter and its tables as one: the machine that adds runs beside the
 * history of its tables and slabs, and every cell it goes through lies in a live slab.
 */
module StripedSlabs {
  import opened Words
  import C = Striped64
  import CS = StripedSafety
  import T = StripedTables
  import S = StripedStorage

  // ---------------------------------------------------------------- cells and slabs

  /** Slab x holds the cells from bounds[x] up to bounds[x + 1]. */
  ghost predicate BoundsOk(bounds: seq<nat>, cells: nat, slabs: nat)
    reads {}
  {
    |bounds| == slabs + 1 && bounds[slabs] == cells && forall x, y :: 0 <= x < y < |bounds| ==> bounds[x] < bounds[y]
  }

  function SlabCells(bounds: seq<nat>, x: nat): C.Table
    reads {}
  {
    if x + 1 < |bounds| && bounds[x] <= bounds[x + 1] then C.Range(bounds[x], bounds[x + 1] - bounds[x]) else []
  }

  /** The cells of a table, slab by slab. */
  function Cells(bounds: seq<nat>, ids: seq<nat>): C.Table
    reads {}
  {
    if ids == [] then [] else Cells(bounds, ids[..|ids| - 1]) + SlabCells(bounds, ids[|ids| - 1])
  }

  predicate Known(ids: seq<nat>, slabs: nat)
    reads {}
  {
    forall i :: 0 <= i < |ids| ==> ids[i] < slabs
  }

  lemma {:induction false} CellsGrow(bounds: seq<nat>, more: seq<nat>, ids: seq<nat>)
    requires bounds <= more && |bounds| > 0 && Known(ids, |bounds| - 1)
    ensures Cells(more, ids) == Cells(bounds, ids)
  {
    if ids != [] {
      CellsGrow(bounds, more, ids[..|ids| - 1]);
    }
  }

  /** Each cell of a table lies in one of its slabs. */
  lemma {:induction false} CellsLie(bounds: seq<nat>, ids: seq<nat>, c: nat) returns (x: nat)
    requires c in Cells(bounds, ids)
    ensures x in ids && x + 1 < |bounds| && bounds[x] <= c < bounds[x + 1]
  {
    var n := |ids| - 1;
    if c in SlabCells(bounds, ids[n]) {
      x := ids[n];
    } else {
      x := CellsLie(bounds, ids[..n], c);
    }
  }

  predicate NoneEmpty(bounds: seq<nat>, ids: seq<nat>)
    reads {}
  {
    forall i :: 0 <= i < |ids| ==> |SlabCells(bounds, ids[i])| > 0
  }

  /** A table has more cells than the one of its first k slabs. */
  lemma {:induction false} CellsLonger(bounds: seq<nat>, ids: seq<nat>, k: nat)
    requires NoneEmpty(bounds, ids) && k < |ids|
    ensures |Cells(bounds, ids[..k])| < |Cells(bounds, ids)|
  {
    var n := |ids| - 1;
    assert |SlabCells(bounds, ids[n])| > 0;
    var low := ids[..n];
    assert NoneEmpty(bounds, low) && low + [ids[n]] == ids;
    hide SlabCells, Cells, NoneEmpty;
    CellsAdd(bounds, low, ids[n]);
    if k < n {
      CellsLonger(bounds, low, k);
      assert low[..k] == ids[..k];
    } else {
      assert ids[..k] == low;
    }
  }

  lemma SlabsNotEmpty(bounds: seq<nat>, cells: nat, slabs: nat, ids: seq<nat>)
    requires BoundsOk(bounds, cells, slabs) && Known(ids, slabs)
    ensures NoneEmpty(bounds, ids)
  {
  }

  // ---------------------------------------------------------------- the table as an array of cells

  /** The first slab has two cells, and each slab doubles the table. */
  predicate Doubling(bounds: seq<nat>, ids: seq<nat>)
    reads {}
  {
    forall i :: 0 <= i < |ids| ==> |SlabCells(bounds, ids[i])| == if i == 0 then 2 else S.Pow2(i)
  }

  lemma SlabSize(bounds: seq<nat>, ids: seq<nat>, i: nat)
    requires Doubling(bounds, ids) && i < |ids|
    ensures |SlabCells(bounds, ids[i])| == if i == 0 then 2 else S.Pow2(i)
  {
  }

  /** A table's cells are those its array of pointers holds, position by position. */
  lemma {:induction false} CellsAreLayout(bounds: seq<nat>, ids: seq<nat>, p: nat)
    requires Doubling(bounds, ids) && |ids| >= 1
    ensures |Cells(bounds, ids)| == |S.Layout(ids)| == S.Pow2(|ids|)
    ensures p < |S.Layout(ids)| ==>
              var c := S.Layout(ids)[p];
              c.slab + 1 < |bounds| && Cells(bounds, ids)[p] == bounds[c.slab] + c.off
  {
    var n := |ids| - 1;
    var low := ids[..n];
    assert low + [ids[n]] == ids;
    SlabSize(bounds, ids, n);
    S.LayoutSize(ids);
    CellsAdd(bounds, low, ids[n]);
    if n == 0 {
      SlabNames(bounds, ids[0], 2, p);
    } else {
      DoublingLow(bounds, ids, n);
      hide Cells, SlabCells, Doubling;
      CellsAreLayout(bounds, low, p);
      LayoutAdd(low, ids[n]);
      hide S.Layout, S.Slab;
      S.Pow2Positive(n);
      SlabNames(bounds, ids[n], S.Pow2(n), p - S.Pow2(n));
    }
  }

  lemma DoublingLow(bounds: seq<nat>, ids: seq<nat>, n: nat)
    requires Doubling(bounds, ids) && n <= |ids|
    ensures Doubling(bounds, ids[..n])
  {
  }

  lemma LayoutAdd(ids: seq<nat>, x: nat)
    requires |ids| >= 1
    ensures S.Layout(ids + [x]) == S.Layout(ids) + S.Slab(x, |S.Layout(ids)|)
  {
    assert (ids + [x])[..|ids|] == ids;
  }

  lemma SlabNames(bounds: seq<nat>, x: nat, n: nat, p: int)
    requires |SlabCells(bounds, x)| == n > 0
    ensures |S.Slab(x, n)| == n
    ensures 0 <= p < n ==>
              S.Slab(x, n)[p] == S.Cell(x, p) && x + 1 < |bounds| && SlabCells(bounds, x)[p] == bounds[x] + p
  {
  }

  lemma DoublingMore(bounds: seq<nat>, more: seq<nat>, ids: seq<nat>)
    requires bounds <= more && |bounds| > 0 && Known(ids, |bounds| - 1) && Doubling(bounds, ids)
    ensures Doubling(more, ids)
  {
  }

  lemma DoublingAdd(bounds: seq<nat>, ids: seq<nat>, x: nat)
    requires Doubling(bounds, ids)
    requires |SlabCells(bounds, x)| == if ids == [] then 2 else |Cells(bounds, ids)|
    ensures Doubling(bounds, ids + [x])
  {
    if ids != [] {
      CellsAreLayout(bounds, ids, 0);
    }
  }

  // ---------------------------------------------------------------- the two machines side by side

  /**
   * `mine` names the private table of each thread that has one, `gone` the tables that were
   * installed and have since been deleted (history): their slabs had passed to other tables,
   * so nothing changes but that they are gone, and a thread that goes through one all the
   * same is taken to find in it what it held.
   */
  datatype Joint = Joint(c: C.State, t: T.State, bounds: seq<nat>, mine: map<Tid, nat>, gone: set<nat>)

  /** The table is one that was installed. */
  ghost predicate Named(t: T.State, bounds: seq<nat>, table: C.Table)
    reads {}
  {
    exists m :: m in t.tabs && T.WasInstalled(t.tabs[m]) && Cells(bounds, t.tabs[m].ids) == table
  }

  ghost predicate StripesMatch(j: Joint)
    reads {}
  {
    if j.t.stripes.None? then j.c.stripes.None?
    else j.t.stripes.value in j.t.tabs && j.c.stripes == Some(Cells(j.bounds, j.t.tabs[j.t.stripes.value].ids))
  }

  ghost predicate UsedMatch(j: Joint)
    reads {}
  {
    forall u :: u in j.c.locals && C.Used(j.c.locals[u].pc).Some? ==>
        Named(j.t, j.bounds, C.Used(j.c.locals[u].pc).value)
  }

  predicate Making(pc: C.Pc)
    reads {}
  {
    pc.Create? || pc.Grow?
  }

  /** n is the private table a thread at pc is about to install. */
  ghost predicate Makes(t: T.State, bounds: seq<nat>, pc: C.Pc, n: nat)
    requires Making(pc)
    reads {}
  {
    && n in t.tabs && t.tabs[n].role.Made?
    && match pc
       case Create(_, _, made) => t.tabs[n].base.None? && Cells(bounds, t.tabs[n].ids) == made
       case Grow(_, _, cur, next) =>
         && Cells(bounds, t.tabs[n].ids) == next
         && t.tabs[n].base.Some? && t.tabs[n].base.value in t.tabs && T.WasInstalled(t.tabs[t.tabs[n].base.value])
         && Cells(bounds, t.tabs[t.tabs[n].base.value].ids) == cur
  }

  predicate Owning(j: Joint, u: Tid)
    reads {}
  {
    u in j.c.locals && u in j.mine && Making(j.c.locals[u].pc)
  }

  ghost predicate MadeMatch(j: Joint)
    reads {}
  {
    && (forall u :: u in j.c.locals && Making(j.c.locals[u].pc) ==>
          u in j.mine && Makes(j.t, j.bounds, j.c.locals[u].pc, j.mine[u]))
    && (forall u, w :: Owning(j, u) && Owning(j, w) && u != w ==> j.mine[u] != j.mine[w])
  }

  /** Installed tables differ in size. */
  ghost predicate SizesDiffer(t: T.State)
    reads {}
  {
    forall m, n :: m in t.tabs && n in t.tabs && m != n && T.WasInstalled(t.tabs[m]) && T.WasInstalled(t.tabs[n]) ==>
      |t.tabs[m].ids| != |t.tabs[n].ids|
  }

  /** Every table has the sizes its array is made with. */
  ghost predicate AllDouble(t: T.State, bounds: seq<nat>)
    reads {}
  {
    forall m :: m in t.tabs ==> Doubling(bounds, t.tabs[m].ids)
  }

  ghost predicate Inv(j: Joint)
    reads {}
  {
    && C.Inv(j.c) && T.Inv(j.t) && !j.t.dead && BoundsOk(j.bounds, |j.c.cells|, j.t.slabs)
    && StripesMatch(j) && UsedMatch(j) && MadeMatch(j) && SizesDiffer(j.t) && AllDouble(j.t, j.bounds)
  }

  /** A new counter, with no table or with one that was built for it. */
  ghost predicate Init(j: Joint)
    reads {}
  {
    && C.Init(j.c) && T.Inv(j.t) && !j.t.dead && BoundsOk(j.bounds, |j.c.cells|, j.t.slabs) && StripesMatch(j)
    && (forall m :: m in j.t.tabs ==> j.t.stripes == Some(m)) && AllDouble(j.t, j.bounds) && j.gone == {}
  }

  /** What happens to the tables when thread u takes the counter from j.c to c': at most one event. */
  ghost predicate Takes(j: Joint, c': C.State, u: Tid, ev: T.Event)
    requires u in j.c.locals
    reads {}
  {
    var pc := j.c.locals[u].pc;
    && T.Enabled(j.t, ev)
    && if |c'.cells| > |j.c.cells| then
         (pc.Top? && ev.Creates?)
         || (pc.CellCas? && ev.Expands? && ev.e in j.t.tabs && Cells(j.bounds, j.t.tabs[ev.e].ids) == pc.cur)
       else
         && Making(pc) && u in j.mine && j.mine[u] in j.t.tabs
         && if pc.Create? then ev == if j.c.stripes.None? then T.Installs(j.mine[u]) else T.Deletes(j.mine[u])
            else if j.c.stripes == Some(pc.cur) then
              j.t.tabs[j.mine[u]].base.Some? && ev == T.Wins(j.t.tabs[j.mine[u]].base.value, j.mine[u])
            else ev == T.Loses(j.mine[u])
  }

  predicate TouchesTables(c: C.State, c': C.State, u: Tid)
    requires u in c.locals
    reads {}
  {
    |c'.cells| > |c.cells| || Making(c.locals[u].pc)
  }

  /** A step of thread u, with its effect on the tables. */
  ghost predicate ThreadStep(j: Joint, j': Joint, u: Tid)
    reads {}
  {
    && u in j.c.locals && C.Next(j.c, j'.c, u) && j'.gone == j.gone
    && (if TouchesTables(j.c, j'.c, u) then exists ev :: Takes(j, j'.c, u, ev) && j'.t == T.Step(j.t, ev)
        else j'.t == j.t)
    && if |j'.c.cells| > |j.c.cells| then j'.bounds == j.bounds + [|j'.c.cells|] && j'.mine == j.mine[u := j.t.named]
       else j'.bounds == j.bounds && j'.mine == j.mine
  }

  /**
   * A replaced table is disavowed, or a table is deleted: one that lost its race, or a
   * disavowed one, whether or not some thread still uses it.
   */
  ghost predicate TableStep(j: Joint, j': Joint)
    reads {}
  {
    && j'.c == j.c && j'.bounds == j.bounds && j'.mine == j.mine
    && if j'.gone == j.gone then
         exists ev :: Disposes(j.t, ev) && j'.t == T.Step(j.t, ev)
       else
         j'.t == j.t && exists n :: n in j.t.tabs && j.t.tabs[n].role.Retired? && j'.gone == j.gone + {n}
  }

  ghost predicate Disposes(t: T.State, ev: T.Event)
    reads {}
  {
    T.Enabled(t, ev) && (ev.Retires? || (ev.Deletes? && t.tabs[ev.n].role.Lost?))
  }

  /** Deleting a disavowed table takes away its name and no slab. */
  lemma GoneIsEmpty(t: T.State, n: nat)
    requires T.Inv(t) && n in t.tabs && t.tabs[n].role.Retired?
    ensures T.Enabled(t, T.Deletes(n)) && T.Step(t, T.Deletes(n)) == t.(tabs := t.tabs - {n})
  {
    T.TabOkOf(t, n);
    hide T.Inv;
  }

  // ---------------------------------------------------------------- one step of the counter

  /** What a step does to tables and cells, by the location it starts from. */
  ghost predicate StepShape(c: C.State, c': C.State, u: Tid)
    requires u in c.locals && u in c'.locals
    reads {}
  {
    var pc, pc' := c.locals[u].pc, c'.locals[u].pc;
    && c'.locals == c.locals[u := c'.locals[u]]
    && (C.Used(pc').Some? ==> C.Used(pc') == C.Used(pc) || C.Used(pc') == c'.stripes)
    && if |c'.cells| > |c.cells| then
         && c'.stripes == c.stripes
         && if pc.Top? then pc'.Create? && pc'.made == C.Range(|c.cells|, 2) && |c'.cells| == |c.cells| + 2
            else
              && pc.CellCas? && pc'.Grow? && pc'.cur == pc.cur && |pc.cur| > 0
              && pc'.next == pc.cur + C.Range(|c.cells|, |pc.cur|) && |c'.cells| == |c.cells| + |pc.cur|
       else
         && |c'.cells| == |c.cells| && !Making(pc')
         && match pc
            case Create(_, _, made) => c'.stripes == if c.stripes.None? then Some(made) else c.stripes
            case Grow(_, _, cur, next) => c'.stripes == if c.stripes == Some(cur) then Some(next) else c.stripes
            case _ => c'.stripes == c.stripes
  }

  lemma StepHasShape(c: C.State, c': C.State, u: Tid)
    requires C.Inv(c) && C.Next(c, c', u)
    ensures u in c.locals && u in c'.locals && StepShape(c, c', u)
  {
    assert C.PcOk(c, c.locals[u].pc);
    hide C.Inv, C.Next, C.PcOk;
    NextCases(c, c', u);
  }

  lemma NextCases(c: C.State, c': C.State, u: Tid)
    requires C.Next(c, c', u) && u in c.locals && C.PcOk(c, c.locals[u].pc)
    ensures u in c'.locals && StepShape(c, c', u)
  {
    hide C.TableOk, C.Distinct, C.IsPow2, C.Fresh;
    var pc := c.locals[u].pc;
    if pc.Idle? || pc.Read? {
    } else {
      var hash :| c' == C.Work(c, u, hash);
      if pc.CellCas? {
        CasShape(c, u, hash);
      } else {
        WorkShape(c, u, hash);
      }
    }
  }

  lemma CasShape(c: C.State, u: Tid, hash: nat)
    requires C.CanWork(c, u) && c.locals[u].pc.CellCas?
    ensures u in C.Work(c, u, hash).locals && StepShape(c, C.Work(c, u, hash), u)
  {
    hide C.Cell;
  }

  lemma WorkShape(c: C.State, u: Tid, hash: nat)
    requires C.CanWork(c, u) && !c.locals[u].pc.CellCas? && C.PcOk(c, c.locals[u].pc)
    requires !c.locals[u].pc.Idle? && !c.locals[u].pc.Read?
    ensures u in C.Work(c, u, hash).locals && StepShape(c, C.Work(c, u, hash), u)
  {
    hide C.TableOk, C.Distinct, C.IsPow2, C.Fresh, C.Cell;
  }

  // ---------------------------------------------------------------- one event of the tables

  /** The table an event takes out of private hands, out of use, or away; a new name if there is none. */
  function Moved(t: T.State, ev: T.Event): nat
    reads {}
  {
    match ev
    case Installs(n) => n
    case Wins(_, n) => n
    case Loses(n) => n
    case Deletes(n) => n
    case _ => t.named
  }

  /** Every table but n stays, with its slabs and its base, installed or private as it was; a new one is private. */
  ghost predicate TabsStay(t: T.State, t': T.State, n: nat)
    reads {}
  {
    && (forall m :: m in t.tabs && m != n ==>
          && m in t'.tabs && t'.tabs[m].ids == t.tabs[m].ids && t'.tabs[m].base == t.tabs[m].base
          && (T.WasInstalled(t'.tabs[m]) <==> T.WasInstalled(t.tabs[m]))
          && (t'.tabs[m].role.Made? <==> t.tabs[m].role.Made?))
    && (forall m :: m in t'.tabs && m !in t.tabs ==> m == t.named && t'.tabs[m].role.Made?)
    && (n in t.tabs && n in t'.tabs ==>
         t'.tabs[n].ids == t.tabs[n].ids && t'.tabs[n].base == t.tabs[n].base && !t'.tabs[n].role.Made?)
  }

  lemma EventStays(t: T.State, ev: T.Event)
    requires T.Inv(t) && T.Enabled(t, ev) && !ev.Destroys?
    ensures var t' := T.Step(t, ev);
            && T.Inv(t') && t'.dead == t.dead && TabsStay(t, t', Moved(t, ev))
            && t'.slabs == t.slabs + (if ev.Creates? || ev.Expands? then 1 else 0)
    ensures t.named !in t.tabs
  {
    T.StepKeepsInv(t, ev);
    UnusedName(t);
    hide T.Inv;
    EventTabs(t, ev);
  }

  lemma UnusedName(t: T.State)
    requires T.Inv(t)
    ensures t.named !in t.tabs
    ensures t.stripes.Some? ==> t.stripes.value in t.tabs && t.tabs[t.stripes.value].role.Installed?
    ensures t.stripes.None? && !t.dead ==> forall m :: m in t.tabs ==> !T.WasInstalled(t.tabs[m])
  {
  }

  lemma EventTabs(t: T.State, ev: T.Event)
    requires T.Enabled(t, ev) && !ev.Destroys? && t.named !in t.tabs
    requires t.stripes.Some? ==> t.stripes.value in t.tabs && t.tabs[t.stripes.value].role.Installed?
    ensures var t' := T.Step(t, ev);
            && t'.dead == t.dead && TabsStay(t, t', Moved(t, ev))
            && t'.slabs == t.slabs + (if ev.Creates? || ev.Expands? then 1 else 0)
  {
    match ev
    case Creates => {}
    case Expands(_) => {}
    case Installs(_) => {}
    case Wins(e, n) => WinStays(t, e, n);
    case Loses(_) => {}
    case Retires(_) => {}
    case Deletes(_) => {}
  }

  lemma WinStays(t: T.State, e: nat, n: nat)
    requires T.Enabled(t, T.Wins(e, n)) && t.tabs[e].role.Installed?
    ensures TabsStay(t, T.Win(t, e, n), n)
  {
  }

  lemma KnownIds(t: T.State, bounds: seq<nat>, cells: nat, more: seq<nat>, m: nat)
    requires T.Inv(t) && m in t.tabs && BoundsOk(bounds, cells, t.slabs) && bounds <= more
    ensures Known(t.tabs[m].ids, t.slabs) && Cells(more, t.tabs[m].ids) == Cells(bounds, t.tabs[m].ids)
  {
    T.TabOkOf(t, m);
    CellsGrow(bounds, more, t.tabs[m].ids);
  }

  /** A table that does not move keeps its name. */
  lemma NamedStays(t: T.State, t': T.State, n: nat, bounds: seq<nat>, cells: nat, more: seq<nat>, table: C.Table)
    requires T.Inv(t) && TabsStay(t, t', n) && BoundsOk(bounds, cells, t.slabs) && bounds <= more
    requires Named(t, bounds, table)
    requires n in t.tabs && T.WasInstalled(t.tabs[n]) ==> Cells(bounds, t.tabs[n].ids) != table
    ensures Named(t', more, table)
  {
    hide T.Inv;
    var m :| m in t.tabs && T.WasInstalled(t.tabs[m]) && Cells(bounds, t.tabs[m].ids) == table;
    KnownIds(t, bounds, cells, more, m);
    assert m in t'.tabs && Cells(more, t'.tabs[m].ids) == table;
  }

  lemma MakesStays(t: T.State, t': T.State, n: nat, bounds: seq<nat>, cells: nat, more: seq<nat>, pc: C.Pc, p: nat)
    requires T.Inv(t) && TabsStay(t, t', n) && BoundsOk(bounds, cells, t.slabs) && bounds <= more
    requires Making(pc) && Makes(t, bounds, pc, p) && n != p
    requires n in t.tabs && T.WasInstalled(t.tabs[n]) ==> C.Used(pc) != Some(Cells(bounds, t.tabs[n].ids))
    ensures Makes(t', more, pc, p)
  {
    hide T.Inv;
    KnownIds(t, bounds, cells, more, p);
    if pc.Grow? {
      KnownIds(t, bounds, cells, more, t.tabs[p].base.value);
    }
  }

  lemma WinLonger(t: T.State, e: nat, n: nat)
    requires T.Inv(t) && T.Enabled(t, T.Wins(e, n))
    ensures |t.tabs[n].ids| == |t.tabs[e].ids| + 1
    ensures forall m :: m in t.tabs && T.WasInstalled(t.tabs[m]) ==> |t.tabs[m].ids| <= |t.tabs[e].ids|
  {
    T.TabOkOf(t, n);
    assert T.Shared(t.tabs[n]) == t.tabs[e].ids;
  }

  lemma SizesStay(t: T.State, ev: T.Event)
    requires T.Inv(t) && T.Enabled(t, ev) && !ev.Destroys? && !t.dead && SizesDiffer(t)
    ensures SizesDiffer(T.Step(t, ev))
  {
    EventStays(t, ev);
    UnusedName(t);
    if ev.Wins? {
      WinLonger(t, ev.e, ev.n);
    }
    hide T.Inv;
    NewSizes(t, T.Step(t, ev), Moved(t, ev));
  }

  lemma NewSizes(t: T.State, t': T.State, n: nat)
    requires TabsStay(t, t', n) && SizesDiffer(t)
    requires n in t.tabs && n in t'.tabs && T.WasInstalled(t'.tabs[n]) && !T.WasInstalled(t.tabs[n]) ==>
               forall m :: m in t.tabs && T.WasInstalled(t.tabs[m]) ==> |t.tabs[m].ids| < |t.tabs[n].ids|
    ensures SizesDiffer(t')
  {
  }

  // ---------------------------------------------------------------- the two together

  /** Every table in use is still one that was installed. */
  lemma UsedStays(j: Joint, j': Joint, u: Tid, n: nat)
    requires T.Inv(j.t) && UsedMatch(j) && BoundsOk(j.bounds, |j.c.cells|, j.t.slabs) && j.bounds <= j'.bounds
    requires u in j.c.locals && u in j'.c.locals && StepShape(j.c, j'.c, u) && TabsStay(j.t, j'.t, n)
    requires n in j.t.tabs ==> !T.WasInstalled(j.t.tabs[n])
    requires StripesMatch(j') && T.Inv(j'.t)
    ensures UsedMatch(j')
  {
    UnusedName(j'.t);
    hide T.Inv, Named, BoundsOk;
    forall w | w in j'.c.locals && C.Used(j'.c.locals[w].pc).Some?
      ensures Named(j'.t, j'.bounds, C.Used(j'.c.locals[w].pc).value)
    {
      var table := C.Used(j'.c.locals[w].pc);
      if C.Used(j.c.locals[w].pc) == table {
        NamedStays(j.t, j'.t, n, j.bounds, |j.c.cells|, j'.bounds, table.value);
      } else {
        InstalledNamed(j'.t, j'.bounds, table.value);
      }
    }
  }

  lemma InstalledNamed(t: T.State, bounds: seq<nat>, table: C.Table)
    requires t.stripes.Some? && t.stripes.value in t.tabs && t.tabs[t.stripes.value].role.Installed?
    requires Cells(bounds, t.tabs[t.stripes.value].ids) == table
    ensures Named(t, bounds, table)
  {
  }

  /** Every private table is still its maker's. */
  lemma MadeStays(j: Joint, j': Joint, u: Tid, n: nat)
    requires T.Inv(j.t) && MadeMatch(j) && BoundsOk(j.bounds, |j.c.cells|, j.t.slabs) && j.bounds <= j'.bounds
    requires u in j.c.locals && u in j'.c.locals && StepShape(j.c, j'.c, u) && TabsStay(j.t, j'.t, n)
    requires n in j.t.tabs ==> !T.WasInstalled(j.t.tabs[n])
    requires n !in j.t.tabs || (Owning(j, u) && n == j.mine[u])
    requires j.t.named !in j.t.tabs && (j'.mine == j.mine || j'.mine == j.mine[u := j.t.named])
    requires Making(j'.c.locals[u].pc) ==>
               j'.mine == j.mine[u := j.t.named] && Makes(j'.t, j'.bounds, j'.c.locals[u].pc, j.t.named)
    ensures MadeMatch(j')
  {
    hide T.Inv, BoundsOk;
    forall w | w in j'.c.locals && Making(j'.c.locals[w].pc)
      ensures w in j'.mine && Makes(j'.t, j'.bounds, j'.c.locals[w].pc, j'.mine[w])
    {
      if w != u {
        assert Owning(j, w);
        MakesStays(j.t, j'.t, n, j.bounds, |j.c.cells|, j'.bounds, j.c.locals[w].pc, j.mine[w]);
      }
    }
    forall w | Owning(j', w) && w != u ensures Owning(j, w) && j'.mine[w] == j.mine[w] && j.mine[w] in j.t.tabs {
      assert Making(j.c.locals[w].pc) && w in j.mine && Makes(j.t, j.bounds, j.c.locals[w].pc, j.mine[w]);
    }
    hide Makes, TabsStay, StepShape;
  }

  lemma InitInv(j: Joint)
    requires Init(j)
    ensures Inv(j)
  {
    CS.InitInv(j.c);
  }

  // ---------------------------------------------------------------- each kind of step

  lemma DoubleStays(t: T.State, t': T.State, n: nat, bounds: seq<nat>, cells: nat, more: seq<nat>)
    requires T.Inv(t) && TabsStay(t, t', n) && BoundsOk(bounds, cells, t.slabs) && bounds <= more
    requires AllDouble(t, bounds)
    requires t.named in t'.tabs ==> Doubling(more, t'.tabs[t.named].ids)
    ensures AllDouble(t', more)
  {
    hide T.Inv, Doubling;
    forall m | m in t'.tabs ensures Doubling(more, t'.tabs[m].ids) {
      if m != t.named {
        KnownIds(t, bounds, cells, more, m);
        DoublingMore(bounds, more, t.tabs[m].ids);
      }
    }
  }

  /** What is left to show of a step once its event is known. */
  lemma StepDone(j: Joint, j': Joint, u: Tid, n: nat)
    requires Inv(j) && u in j.c.locals && C.Next(j.c, j'.c, u)
    requires T.Inv(j'.t) && !j'.t.dead && SizesDiffer(j'.t) && TabsStay(j.t, j'.t, n)
    requires n in j.t.tabs ==> !T.WasInstalled(j.t.tabs[n]) && Owning(j, u) && n == j.mine[u]
    requires j.bounds <= j'.bounds && BoundsOk(j'.bounds, |j'.c.cells|, j'.t.slabs) && StripesMatch(j')
    requires j.t.named !in j.t.tabs && (j'.mine == j.mine || j'.mine == j.mine[u := j.t.named])
    requires u in j'.c.locals && Making(j'.c.locals[u].pc) ==>
               j'.mine == j.mine[u := j.t.named] && Makes(j'.t, j'.bounds, j'.c.locals[u].pc, j.t.named)
    requires j.t.named in j'.t.tabs ==> Doubling(j'.bounds, j'.t.tabs[j.t.named].ids)
    ensures Inv(j')
  {
    StepHasShape(j.c, j'.c, u);
    CS.NextKeepsInv(j.c, j'.c, u);
    hide C.Inv, C.Next, T.Inv, StripesMatch, SizesDiffer, TabsStay, BoundsOk, StepShape, Makes;
    hide Doubling, AllDouble;
    UsedStays(j, j', u, n);
    MadeStays(j, j', u, n);
    DoubleStays(j.t, j'.t, n, j.bounds, |j.c.cells|, j'.bounds);
  }

  /** No table is touched. */
  lemma QuietKeepsInv(j: Joint, j': Joint, u: Tid)
    requires Inv(j) && ThreadStep(j, j', u) && !TouchesTables(j.c, j'.c, u)
    ensures Inv(j')
  {
    StepHasShape(j.c, j'.c, u);
    UnusedName(j.t);
    hide C.Inv, C.Next, T.Inv, UsedMatch, MadeMatch, SizesDiffer, BoundsOk;
    StepDone(j, j', u, j.t.named);
  }

  /** A slab is allocated, for a new private table. */
  lemma AllocKeepsInv(j: Joint, j': Joint, u: Tid)
    requires Inv(j) && ThreadStep(j, j', u) && |j'.c.cells| > |j.c.cells|
    ensures Inv(j')
  {
    StepHasShape(j.c, j'.c, u);
    UnusedName(j.t);
    var ev :| Takes(j, j'.c, u, ev) && j'.t == T.Step(j.t, ev);
    hide C.Inv, C.Next, UsedMatch, MadeMatch, SizesDiffer, T.Inv, T.Step, T.Enabled, StripesMatch;
    AllocDone(j, j', u, ev);
  }

  lemma AllocDone(j: Joint, j': Joint, u: Tid, ev: T.Event)
    requires Inv(j) && u in j.c.locals && u in j'.c.locals && C.Next(j.c, j'.c, u)
    requires StepShape(j.c, j'.c, u) && |j'.c.cells| > |j.c.cells| && Takes(j, j'.c, u, ev) && j'.t == T.Step(j.t, ev)
    requires j'.bounds == j.bounds + [|j'.c.cells|] && j'.mine == j.mine[u := j.t.named]
    ensures Inv(j')
  {
    hide C.Inv, C.Next, UsedMatch, MadeMatch, SizesDiffer, T.Inv, T.Step, T.Enabled, TabsStay, Makes, StripesMatch;
    hide AllDouble, Doubling;
    BoundsMore(j.bounds, |j.c.cells|, j.t.slabs, |j'.c.cells|);
    AllocMakes(j, j', u, ev);
    hide BoundsOk;
    EventStays(j.t, ev);
    SizesStay(j.t, ev);
    AllocStripes(j.t, ev);
    StripesKept(j, j', j.t.named);
    hide StepShape, Takes;
    StepDone(j, j', u, j.t.named);
  }

  lemma AllocStripes(t: T.State, ev: T.Event)
    requires T.Enabled(t, ev) && (ev.Creates? || ev.Expands?)
    ensures T.Step(t, ev).stripes == t.stripes
  {
  }

  lemma BoundsMore(bounds: seq<nat>, cells: nat, slabs: nat, more: nat)
    requires BoundsOk(bounds, cells, slabs) && cells < more
    ensures bounds <= bounds + [more] && BoundsOk(bounds + [more], more, slabs + 1)
    ensures SlabCells(bounds + [more], slabs) == C.Range(cells, more - cells)
  {
  }

  /** The installed table keeps its cells when it is not the one that moves. */
  lemma StripesKept(j: Joint, j': Joint, n: nat)
    requires T.Inv(j.t) && StripesMatch(j) && j'.c.stripes == j.c.stripes && j'.t.stripes == j.t.stripes
    requires BoundsOk(j.bounds, |j.c.cells|, j.t.slabs) && j.bounds <= j'.bounds
    requires TabsStay(j.t, j'.t, n) && (n in j.t.tabs ==> j.t.stripes != Some(n))
    ensures StripesMatch(j')
  {
    UnusedName(j.t);
    if j.t.stripes.Some? {
      KnownIds(j.t, j.bounds, |j.c.cells|, j'.bounds, j.t.stripes.value);
    }
  }

  lemma AllocMakes(j: Joint, j': Joint, u: Tid, ev: T.Event)
    requires T.Inv(j.t) && AllDouble(j.t, j.bounds) && BoundsOk(j.bounds, |j.c.cells|, j.t.slabs) && u in j.c.locals
    requires u in j'.c.locals
    requires StepShape(j.c, j'.c, u) && |j'.c.cells| > |j.c.cells| && Takes(j, j'.c, u, ev)
    requires j'.t == T.Step(j.t, ev) && j'.bounds == j.bounds + [|j'.c.cells|]
    ensures Making(j'.c.locals[u].pc) && Makes(j'.t, j'.bounds, j'.c.locals[u].pc, j.t.named)
    ensures (ev.Creates? || ev.Expands?) && j.t.named in j'.t.tabs && Doubling(j'.bounds, j'.t.tabs[j.t.named].ids)
  {
    UnusedName(j.t);
    BoundsMore(j.bounds, |j.c.cells|, j.t.slabs, |j'.c.cells|);
    if ev.Expands? {
      KnownIds(j.t, j.bounds, |j.c.cells|, j'.bounds, ev.e);
      DoublingMore(j.bounds, j'.bounds, j.t.tabs[ev.e].ids);
      hide Cells, T.Inv, SlabCells, BoundsOk, Makes, Doubling;
      ExpandMakes(j.t, ev.e, j'.bounds, j'.c.locals[u].pc);
    } else {
      hide Cells, T.Inv, SlabCells, BoundsOk, Makes, Doubling;
      CreateMakes(j.t, j'.bounds, j'.c.locals[u].pc);
    }
  }

  lemma CreateMakes(t: T.State, bounds: seq<nat>, pc: C.Pc)
    requires pc.Create? && pc.made == SlabCells(bounds, t.slabs) && |pc.made| == 2
    ensures Makes(T.Create(t), bounds, pc, t.named) && Doubling(bounds, T.Create(t).tabs[t.named].ids)
  {
    hide SlabCells;
    CellsAdd(bounds, [], t.slabs);
    DoublingAdd(bounds, [], t.slabs);
    assert [] + [t.slabs] == [t.slabs];
  }

  lemma ExpandMakes(t: T.State, e: nat, bounds: seq<nat>, pc: C.Pc)
    requires e in t.tabs && T.WasInstalled(t.tabs[e]) && t.named !in t.tabs
    requires pc.Grow? && pc.cur == Cells(bounds, t.tabs[e].ids) && pc.next == pc.cur + SlabCells(bounds, t.slabs)
    requires |SlabCells(bounds, t.slabs)| == |pc.cur| > 0 && Doubling(bounds, t.tabs[e].ids)
    ensures Makes(T.Expand(t, e), bounds, pc, t.named) && Doubling(bounds, T.Expand(t, e).tabs[t.named].ids)
  {
    assert t.tabs[e].ids != [];
    CellsAdd(bounds, t.tabs[e].ids, t.slabs);
    hide Doubling;
    DoublingAdd(bounds, t.tabs[e].ids, t.slabs);
    hide SlabCells, Cells;
  }

  lemma CellsAdd(bounds: seq<nat>, ids: seq<nat>, x: nat)
    ensures Cells(bounds, ids + [x]) == Cells(bounds, ids) + SlabCells(bounds, x)
    ensures Cells(bounds, []) == []
  {
    assert (ids + [x])[..|ids|] == ids;
  }

  /** The race for stripes_: won or lost, the private table leaves its maker's hands. */
  lemma RaceStripes(j: Joint, j': Joint, u: Tid, ev: T.Event)
    requires T.Inv(j.t) && StripesMatch(j) && BoundsOk(j.bounds, |j.c.cells|, j.t.slabs)
    requires u in j.c.locals && u in j'.c.locals && StepShape(j.c, j'.c, u) && |j'.c.cells| == |j.c.cells|
    requires Takes(j, j'.c, u, ev) && Makes(j.t, j.bounds, j.c.locals[u].pc, j.mine[u])
    requires j'.t == T.Step(j.t, ev) && j'.bounds == j.bounds
    ensures Moved(j.t, ev) == j.mine[u] && !ev.Destroys? && !ev.Creates? && !ev.Expands?
    ensures j.t.named !in j'.t.tabs
    ensures StripesMatch(j')
  {
    UnusedName(j.t);
    EventTabs(j.t, ev);
    if j'.t.stripes == j.t.stripes {
      hide T.Inv;
      RaceLost(j, j', u, ev);
      StripesKept(j, j', j.mine[u]);
    }
  }

  lemma RaceLost(j: Joint, j': Joint, u: Tid, ev: T.Event)
    requires StripesMatch(j) && u in j.c.locals && u in j'.c.locals
    requires StepShape(j.c, j'.c, u) && |j'.c.cells| == |j.c.cells|
    requires Takes(j, j'.c, u, ev) && Makes(j.t, j.bounds, j.c.locals[u].pc, j.mine[u])
    requires j.t.stripes.Some? ==> j.t.stripes.value in j.t.tabs && j.t.tabs[j.t.stripes.value].role.Installed?
    requires j'.t == T.Step(j.t, ev) && j'.t.stripes == j.t.stripes
    ensures j'.c.stripes == j.c.stripes && j.t.stripes != Some(j.mine[u])
  {
  }

  lemma RaceKeepsInv(j: Joint, j': Joint, u: Tid)
    requires Inv(j) && ThreadStep(j, j', u) && Making(j.c.locals[u].pc)
    ensures Inv(j')
  {
    StepHasShape(j.c, j'.c, u);
    var ev :| Takes(j, j'.c, u, ev) && j'.t == T.Step(j.t, ev);
    assert Owning(j, u) && Makes(j.t, j.bounds, j.c.locals[u].pc, j.mine[u]);
    assert |j'.c.cells| == |j.c.cells| && C.Next(j.c, j'.c, u);
    hide C.Inv, C.Next, UsedMatch, MadeMatch, SizesDiffer, T.Inv, T.Step, T.Enabled, StripesMatch, TabsStay, BoundsOk;
    hide AllDouble, Inv;
    RaceDone(j, j', u, ev);
  }

  lemma RaceDone(j: Joint, j': Joint, u: Tid, ev: T.Event)
    requires Inv(j) && Owning(j, u) && u in j'.c.locals && C.Next(j.c, j'.c, u) && StepShape(j.c, j'.c, u)
    requires |j'.c.cells| == |j.c.cells| && Takes(j, j'.c, u, ev) && Makes(j.t, j.bounds, j.c.locals[u].pc, j.mine[u])
    requires j'.t == T.Step(j.t, ev) && j'.bounds == j.bounds && j'.mine == j.mine
    ensures Inv(j')
  {
    hide C.Inv, C.Next, UsedMatch, MadeMatch, SizesDiffer, T.Inv, T.Step, T.Enabled, StripesMatch, BoundsOk;
    hide AllDouble, Doubling;
    RaceStripes(j, j', u, ev);
    EventStays(j.t, ev);
    SizesStay(j.t, ev);
    hide Takes;
    StepDone(j, j', u, j.mine[u]);
  }

  /** Whatever a thread does, tables included, the invariant stays. */
  lemma ThreadKeepsInv(j: Joint, j': Joint, u: Tid)
    requires Inv(j) && ThreadStep(j, j', u)
    ensures Inv(j')
  {
    assert u in j.c.locals;
    hide Inv, ThreadStep;
    if !TouchesTables(j.c, j'.c, u) {
      QuietKeepsInv(j, j', u);
    } else if |j'.c.cells| > |j.c.cells| {
      AllocKeepsInv(j, j', u);
    } else {
      RaceKeepsInv(j, j', u);
    }
  }

  /** So it does when a table is disavowed or deleted. */
  lemma TableKeepsInv(j: Joint, j': Joint)
    requires Inv(j) && TableStep(j, j')
    ensures Inv(j')
  {
    hide C.Inv, T.Inv, T.Step, SizesDiffer, BoundsOk, StripesMatch, TabsStay, UsedMatch, MadeMatch;
    hide AllDouble, Doubling;
    if j'.gone == j.gone {
      var ev :| Disposes(j.t, ev) && j'.t == T.Step(j.t, ev);
      DisposeDone(j, j', ev);
    } else {
      SameTables(j, j');
    }
  }

  lemma SameTables(j: Joint, j': Joint)
    requires Inv(j) && j' == j.(gone := j'.gone)
    ensures Inv(j')
  {
    hide C.Inv, T.Inv, SizesDiffer, BoundsOk, AllDouble, Named, Makes;
  }

  lemma DisposeDone(j: Joint, j': Joint, ev: T.Event)
    requires Inv(j) && Disposes(j.t, ev) && j' == j.(t := T.Step(j.t, ev))
    ensures Inv(j')
  {
    hide C.Inv, T.Inv, T.Step, SizesDiffer, BoundsOk, StripesMatch, TabsStay, UsedMatch, MadeMatch;
    hide AllDouble, Doubling;
    TableMoves(j.t, ev);
    EventStays(j.t, ev);
    SizesStay(j.t, ev);
    StripesKept(j, j', Moved(j.t, ev));
    TableUses(j, j', Moved(j.t, ev));
    DoubleStays(j.t, j'.t, Moved(j.t, ev), j.bounds, |j.c.cells|, j.bounds);
  }

  lemma TableMoves(t: T.State, ev: T.Event)
    requires T.Inv(t) && Disposes(t, ev)
    ensures T.Enabled(t, ev) && !ev.Destroys?
    ensures T.Step(t, ev).stripes == t.stripes && t.named !in T.Step(t, ev).tabs
    ensures var n := Moved(t, ev);
            n in t.tabs ==> !t.tabs[n].role.Made? && t.stripes != Some(n) && !T.WasInstalled(t.tabs[n])
  {
    UnusedName(t);
    hide T.Inv;
  }

  lemma TableUses(j: Joint, j': Joint, n: nat)
    requires T.Inv(j.t) && TabsStay(j.t, j'.t, n) && BoundsOk(j.bounds, |j.c.cells|, j.t.slabs)
    requires UsedMatch(j) && MadeMatch(j) && j'.c == j.c && j'.bounds == j.bounds && j'.mine == j.mine
    requires n in j.t.tabs ==> !j.t.tabs[n].role.Made? && !T.WasInstalled(j.t.tabs[n])
    ensures UsedMatch(j') && MadeMatch(j')
  {
    hide T.Inv, BoundsOk, Named, TabsStay, Makes;
    forall w | w in j'.c.locals && C.Used(j'.c.locals[w].pc).Some?
      ensures Named(j'.t, j'.bounds, C.Used(j'.c.locals[w].pc).value)
    {
      NamedStays(j.t, j'.t, n, j.bounds, |j.c.cells|, j.bounds, C.Used(j.c.locals[w].pc).value);
    }
    forall w | w in j'.c.locals && Making(j'.c.locals[w].pc)
      ensures w in j'.mine && Makes(j'.t, j'.bounds, j'.c.locals[w].pc, j'.mine[w])
    {
      MakesMade(j.t, j.bounds, j.c.locals[w].pc, j.mine[w]);
      MakesStays(j.t, j'.t, n, j.bounds, |j.c.cells|, j.bounds, j.c.locals[w].pc, j.mine[w]);
    }
    assert forall w :: Owning(j', w) ==> Owning(j, w);
  }

  lemma MakesMade(t: T.State, bounds: seq<nat>, pc: C.Pc, n: nat)
    requires Making(pc) && Makes(t, bounds, pc, n)
    ensures n in t.tabs && t.tabs[n].role.Made?
  {
  }

  // ---------------------------------------------------------------- every step has its event

  /** The table a thread at its second compare-exchange expects is installed if its cells are the installed ones. */
  lemma BaseInstalled(j: Joint, u: Tid)
    requires Inv(j) && u in j.c.locals && j.c.locals[u].pc.Grow? && j.c.stripes == Some(j.c.locals[u].pc.cur)
    ensures u in j.mine && j.mine[u] in j.t.tabs && j.t.tabs[j.mine[u]].base == j.t.stripes && j.t.stripes.Some?
  {
    assert Makes(j.t, j.bounds, j.c.locals[u].pc, j.mine[u]);
    UnusedName(j.t);
    hide C.Inv, T.Inv, UsedMatch, MadeMatch, BoundsOk, SizesDiffer;
    SameTable(j.t, j.bounds, |j.c.cells|, j.t.tabs[j.mine[u]].base.value, j.t.stripes.value);
  }

  /** A table with the cells of the installed one is the installed one. */
  lemma SameTable(t: T.State, bounds: seq<nat>, cells: nat, e: nat, k: nat)
    requires T.Inv(t) && SizesDiffer(t) && BoundsOk(bounds, cells, t.slabs)
    requires t.stripes == Some(k) && k in t.tabs && t.tabs[k].role.Installed?
    requires e in t.tabs && T.WasInstalled(t.tabs[e]) && Cells(bounds, t.tabs[e].ids) == Cells(bounds, t.tabs[k].ids)
    ensures e == k
  {
    SharesPrefix(t, e, k);
    KnownIds(t, bounds, cells, bounds, k);
    hide T.Inv, BoundsOk, Cells;
    var ids, more := t.tabs[e].ids, t.tabs[k].ids;
    if |ids| < |more| {
      assert more[..|ids|] == ids;
      SlabsNotEmpty(bounds, cells, t.slabs, more);
      CellsLonger(bounds, more, |ids|);
    }
  }

  lemma SharesPrefix(t: T.State, m: nat, n: nat)
    requires T.Inv(t) && t.stripes == Some(n) && n in t.tabs && m in t.tabs && T.WasInstalled(t.tabs[m])
    ensures t.tabs[m].ids <= t.tabs[n].ids
  {
  }

  /** The tables can follow every step of the counter. */
  lemma TablesFollow(j: Joint, c': C.State, u: Tid) returns (j': Joint)
    requires Inv(j) && C.Next(j.c, c', u)
    ensures j'.c == c' && ThreadStep(j, j', u)
  {
    StepHasShape(j.c, c', u);
    var more := |c'.cells| > |j.c.cells|;
    j' := if more then Joint(c', j.t, j.bounds + [|c'.cells|], j.mine[u := j.t.named], j.gone)
          else Joint(c', j.t, j.bounds, j.mine, j.gone);
    if TouchesTables(j.c, c', u) {
      var ev := EventOf(j, c', u);
      j' := j'.(t := T.Step(j.t, ev));
    }
  }

  lemma EventOf(j: Joint, c': C.State, u: Tid) returns (ev: T.Event)
    requires Inv(j) && u in j.c.locals && u in c'.locals && StepShape(j.c, c', u) && TouchesTables(j.c, c', u)
    ensures Takes(j, c', u, ev)
  {
    var pc := j.c.locals[u].pc;
    hide Inv, StepShape;
    if |c'.cells| > |j.c.cells| {
      ev := AllocOf(j, c', u);
    } else {
      ev := RaceOf(j, u);
    }
  }

  lemma AllocOf(j: Joint, c': C.State, u: Tid) returns (ev: T.Event)
    requires Inv(j) && u in j.c.locals && u in c'.locals && StepShape(j.c, c', u) && |c'.cells| > |j.c.cells|
    ensures Takes(j, c', u, ev)
  {
    hide C.Inv, T.Inv, SizesDiffer, BoundsOk, StripesMatch, MadeMatch;
    var pc := j.c.locals[u].pc;
    if pc.Top? {
      ev := T.Creates;
    } else {
      assert C.Used(pc) == Some(pc.cur) && Named(j.t, j.bounds, pc.cur);
      var e :| e in j.t.tabs && T.WasInstalled(j.t.tabs[e]) && Cells(j.bounds, j.t.tabs[e].ids) == pc.cur;
      ev := T.Expands(e);
    }
  }

  lemma RaceOf(j: Joint, u: Tid) returns (ev: T.Event)
    requires Inv(j) && u in j.c.locals && Making(j.c.locals[u].pc)
    ensures T.Enabled(j.t, ev) && u in j.mine && j.mine[u] in j.t.tabs
    ensures var pc := j.c.locals[u].pc;
            if pc.Create? then ev == if j.c.stripes.None? then T.Installs(j.mine[u]) else T.Deletes(j.mine[u])
            else if j.c.stripes == Some(pc.cur) then
              j.t.tabs[j.mine[u]].base.Some? && ev == T.Wins(j.t.tabs[j.mine[u]].base.value, j.mine[u])
            else ev == T.Loses(j.mine[u])
  {
    var pc, n := j.c.locals[u].pc, j.mine[u];
    assert Makes(j.t, j.bounds, pc, n);
    if pc.Create? {
      ev := if j.c.stripes.None? then T.Installs(n) else T.Deletes(n);
    } else if j.c.stripes == Some(pc.cur) {
      BaseInstalled(j, u);
      ev := T.Wins(j.t.tabs[n].base.value, n);
    } else {
      ev := T.Loses(n);
    }
  }

  // ---------------------------------------------------------------- whole runs

  ghost predicate Next(j: Joint, j': Joint)
    reads {}
  {
    TableStep(j, j') || exists u :: ThreadStep(j, j', u)
  }

  ghost predicate IsRun(states: seq<Joint>)
    reads {}
  {
    && |states| > 0 && Init(states[0])
    && forall i {:trigger states[i]} :: 0 <= i < |states| - 1 ==> Next(states[i], states[i + 1])
  }

  lemma {:induction false} RunInv(states: seq<Joint>, n: nat)
    requires IsRun(states) && n < |states|
    ensures Inv(states[n])
  {
    hide Inv, Init, TableStep, ThreadStep;
    if n == 0 {
      InitInv(states[0]);
    } else {
      RunInv(states, n - 1);
      var i := n - 1;
      assert Next(states[i], states[i + 1]);
      if TableStep(states[i], states[i + 1]) {
        TableKeepsInv(states[i], states[i + 1]);
      } else {
        var u :| ThreadStep(states[i], states[i + 1], u);
        ThreadKeepsInv(states[i], states[i + 1], u);
      }
    }
  }

  /**
   * In every run of the counter together with its tables, whatever table a thread uses,
   * replaced or even deleted, was installed, and each of its cells lies in exactly one slab, which
   * has not been deleted. So each compare-exchange of a cell lands in live memory.
   */
  lemma CellsAreLive(states: seq<Joint>, n: nat, u: Tid, c: nat) returns (x: nat)
    requires IsRun(states) && n < |states| && u in states[n].c.locals
    requires C.Used(states[n].c.locals[u].pc).Some? && c in C.Used(states[n].c.locals[u].pc).value
    ensures var j := states[n];
            && x in j.t.live && j.t.freed[x] == 0 && x + 1 < |j.bounds| && j.bounds[x] <= c < j.bounds[x + 1]
            && forall y :: 0 <= y < |j.bounds| - 1 && j.bounds[y] <= c < j.bounds[y + 1] ==> y == x
  {
    RunInv(states, n);
    x := UsedIsLive(states[n], u, c);
  }

  /** Position p of the table is the cell that the array's p-th pointer names by slab and offset. */
  ghost predicate IsArray(bounds: seq<nat>, table: C.Table, data: seq<S.Cell>)
    reads {}
  {
    && |table| == |data|
    && (forall p {:trigger data[p]} :: 0 <= p < |data| ==>
          data[p].slab + 1 < |bounds| && table[p] == bounds[data[p].slab] + data[p].off)
  }

  /** The table a thread uses is the array of a table that was installed, pointer by pointer. */
  lemma UsedIsArray(states: seq<Joint>, n: nat, u: Tid) returns (m: nat)
    requires IsRun(states) && n < |states| && u in states[n].c.locals && C.Used(states[n].c.locals[u].pc).Some?
    ensures var j := states[n];
            && m in j.t.tabs && T.WasInstalled(j.t.tabs[m]) && |j.t.tabs[m].ids| >= 1
            && IsArray(j.bounds, C.Used(j.c.locals[u].pc).value, S.Layout(j.t.tabs[m].ids))
  {
    RunInv(states, n);
    hide IsRun, Inv, IsArray;
    m := UsedLayout(states[n], u);
  }

  lemma UsedLayout(j: Joint, u: Tid) returns (m: nat)
    requires Inv(j) && u in j.c.locals && C.Used(j.c.locals[u].pc).Some?
    ensures m in j.t.tabs && T.WasInstalled(j.t.tabs[m]) && |j.t.tabs[m].ids| >= 1
    ensures IsArray(j.bounds, C.Used(j.c.locals[u].pc).value, S.Layout(j.t.tabs[m].ids))
  {
    hide C.Inv, T.Inv, SizesDiffer, StripesMatch, MadeMatch, BoundsOk;
    var table := C.Used(j.c.locals[u].pc).value;
    assert Named(j.t, j.bounds, table);
    m :| m in j.t.tabs && T.WasInstalled(j.t.tabs[m]) && Cells(j.bounds, j.t.tabs[m].ids) == table;
    T.TabOkOf(j.t, m);
    hide UsedMatch, AllDouble, Named, Cells, S.Layout, Doubling, IsArray;
    TableIsArray(j.bounds, j.t.tabs[m].ids);
  }

  lemma TableIsArray(bounds: seq<nat>, ids: seq<nat>)
    requires Doubling(bounds, ids) && |ids| >= 1
    ensures IsArray(bounds, Cells(bounds, ids), S.Layout(ids))
  {
    hide Doubling, Cells, S.Layout;
    CellsAreLayout(bounds, ids, 0);
    forall p {:trigger S.Layout(ids)[p]} | 0 <= p < |S.Layout(ids)|
      ensures S.Layout(ids)[p].slab + 1 < |bounds|
      ensures Cells(bounds, ids)[p] == bounds[S.Layout(ids)[p].slab] + S.Layout(ids)[p].off
    {
      CellsAreLayout(bounds, ids, p);
    }
  }

  lemma UsedIsLive(j: Joint, u: Tid, c: nat) returns (x: nat)
    requires Inv(j) && u in j.c.locals && C.Used(j.c.locals[u].pc).Some? && c in C.Used(j.c.locals[u].pc).value
    ensures x in j.t.live && j.t.freed[x] == 0 && x + 1 < |j.bounds| && j.bounds[x] <= c < j.bounds[x + 1]
    ensures forall y :: 0 <= y < |j.bounds| - 1 && j.bounds[y] <= c < j.bounds[y + 1] ==> y == x
  {
    hide C.Inv, T.Inv, SizesDiffer, StripesMatch, MadeMatch, BoundsOk;
    var table := C.Used(j.c.locals[u].pc).value;
    assert Named(j.t, j.bounds, table);
    var m :| m in j.t.tabs && T.WasInstalled(j.t.tabs[m]) && Cells(j.bounds, j.t.tabs[m].ids) == table;
    x := CellsLie(j.bounds, j.t.tabs[m].ids, c);
    SlabLive(j.t, m, x);
    OneSlab(j.bounds, |j.c.cells|, j.t.slabs, x, c);
  }

  lemma OneSlab(bounds: seq<nat>, cells: nat, slabs: nat, x: nat, c: nat)
    requires BoundsOk(bounds, cells, slabs) && x + 1 < |bounds| && bounds[x] <= c < bounds[x + 1]
    ensures forall y :: 0 <= y < |bounds| - 1 && bounds[y] <= c < bounds[y + 1] ==> y == x
  {
  }

  lemma SlabLive(t: T.State, m: nat, x: nat)
    requires T.Inv(t) && !t.dead && m in t.tabs && T.WasInstalled(t.tabs[m]) && x in t.tabs[m].ids
    ensures x in t.live && t.freed[x] == 0
  {
    UnusedName(t);
    var n := t.stripes.value;
    SharesPrefix(t, m, n);
    assert x in T.Due(t.tabs[n]);
  }
}