/**
 * The striped counter as a state machine: any number of threads inside add, addSlow
 * and value, one atomic access per step, while the table of cells doubles under them.
 */
module Striped64 {
  import opened Words

  /** A table is the sequence of its cells' names; a table and its successor share a prefix. */
  type Table = seq<nat>

  /** The largest table that may not grow any more. */
  const STRIPE_LIMIT := 8

  /** Where in add a thread is: the inline fast path, or addSlow with its two flags. */
  datatype Mode = Fast | Slow(contended: bool, load: bool)

  datatype Pc =
    | Idle
    | Start(v: int)                                            // add: cur := stripes_
    | BaseLoad(v: int)                                         // expected := base_
    | BaseCas(v: int, seen: int)                               // CAS base_
    | Guard(v: int, mode: Mode)                                // loadAndSetHazard: cur := stripes_, hazard := cur
    | Recheck(v: int, mode: Mode, hand: Option<Table>)         // ... stripes_ == cur ?
    | CellLoad(v: int, mode: Mode, cur: Table)                 // expected := *slot
    | CellCas(v: int, mode: Mode, cur: Table, seen: int)       // CAS *slot
    | Top(v: int, mode: Mode, hand: Option<Table>)             // addSlow: for (;;)
    | Create(v: int, mode: Mode, made: Table)                  // CAS stripes_ from null to made
    | Grow(v: int, mode: Mode, cur: Table, next: Table)        // CAS stripes_ from cur to next
    | ReadBase                                                 // value: ret := base_
    | ReadTable(sum: int)                                      // cur := stripes_, hazard := cur
    | ReadCheck(sum: int, cur: Table)                          // stripes_ == cur ?
    | ReadCell(sum: int, cur: Table, i: nat)                   // ret += cur->get(i)
    | Read(result: int)                                        // value has returned

  /**
   * `args` lists the arguments of this thread's adds so far (history); `hash` is its
   * hash code.
   */
  datatype Local = Local(args: seq<int>, hash: nat, pc: Pc)

  /** One successful CAS: the n-th add of thread t added v. */
  datatype Entry = Entry(t: Tid, n: nat, v: int)

  /** `log` is history: the updates that took effect, in order. */
  datatype State = State(base: int, cells: seq<int>, stripes: Option<Table>, locals: map<Tid, Local>, log: seq<Entry>)

  // ---------------------------------------------------------------- reading the state

  /** Every cell of the table exists. */
  predicate Within(table: Table, n: nat)
    reads {}
  {
    forall i :: 0 <= i < |table| ==> table[i] < n
  }

  function Sum(cells: seq<int>, table: Table): int
    requires Within(table, |cells|)
    reads {}
  {
    if table == [] then 0 else cells[table[0]] + Sum(cells, table[1..])
  }

  function Total(log: seq<Entry>): int
    reads {}
  {
    if log == [] then 0 else Total(log[..|log| - 1]) + log[|log| - 1].v
  }

  function Current(s: State): Table
    reads {}
  {
    if s.stripes.Some? then s.stripes.value else []
  }

  predicate Adding(pc: Pc)
    reads {}
  {
    !pc.Idle? && !pc.ReadBase? && !pc.ReadTable? && !pc.ReadCheck? && !pc.ReadCell? && !pc.Read?
  }

  /** hash & (size - 1), for a size that is a power of two. */
  function Index(hash: nat, size: nat): nat
    requires size > 0
    reads {}
  {
    hash % size
  }

  function Range(n: nat, k: nat): (t: Table)
    reads {}
    ensures |t| == k && forall i :: 0 <= i < k ==> t[i] == n + i
  {
    seq(k, i requires 0 <= i < k => n + i)
  }

  function Zeros(k: nat): seq<int>
    reads {}
  {
    seq(k, _ => 0)
  }

  // ---------------------------------------------------------------- steps

  function At(s: State, t: Tid, pc: Pc): State
    requires t in s.locals
    reads {}
  {
    s.(locals := s.locals[t := s.locals[t].(pc := pc)])
  }

  /** The add of thread t takes effect. */
  function Applied(s: State, t: Tid): State
    requires t in s.locals && Adding(s.locals[t].pc) && |s.locals[t].args| > 0
    reads {}
  {
    At(s.(log := s.log + [Entry(t, |s.locals[t].args| - 1, s.locals[t].pc.v)]), t, Idle)
  }

  function DoStart(s: State, t: Tid): State
    requires t in s.locals && s.locals[t].pc.Start?
    reads {}
  {
    var v := s.locals[t].pc.v;
    At(s, t, if s.stripes.None? then BaseLoad(v) else Guard(v, Fast))
  }

  function DoBaseCas(s: State, t: Tid): State
    requires t in s.locals && s.locals[t].pc.BaseCas? && |s.locals[t].args| > 0
    reads {}
  {
    var BaseCas(v, seen) := s.locals[t].pc;
    if s.base == seen then Applied(s.(base := seen + v), t)
    else At(s, t, Top(v, Slow(false, true), None))
  }

  function DoRecheck(s: State, t: Tid): State
    requires t in s.locals && s.locals[t].pc.Recheck?
    reads {}
  {
    var Recheck(v, mode, cur) := s.locals[t].pc;
    At(s, t, if s.stripes == cur && cur.Some? then CellLoad(v, mode, cur.value) else Guard(v, mode))
  }

  predicate CellsOk(s: State, table: Table)
    reads {}
  {
    |table| > 0 && Within(table, |s.cells|)
  }

  function Cell(s: State, t: Tid, cur: Table): (c: nat)
    requires t in s.locals && |cur| > 0
    reads {}
    ensures c in cur
  {
    cur[Index(s.locals[t].hash, |cur|)]
  }

  function DoCellLoad(s: State, t: Tid): State
    requires t in s.locals && s.locals[t].pc.CellLoad? && CellsOk(s, s.locals[t].pc.cur)
    reads {}
  {
    var CellLoad(v, mode, cur) := s.locals[t].pc;
    At(s, t, CellCas(v, mode, cur, s.cells[Cell(s, t, cur)]))
  }

  /** A new table holding cur's cells and as many fresh zeroed ones (two, if cur is empty). */
  function Expanded(s: State, cur: Table): Table
    reads {}
  {
    cur + Range(|s.cells|, if cur == [] then 2 else |cur|)
  }

  function Alloc(s: State, cur: Table): State
    reads {}
  {
    s.(cells := s.cells + Zeros(if cur == [] then 2 else |cur|))
  }

  /** `hash` is the remixed hash code, used if the step remixes. */
  function DoCellCas(s: State, t: Tid, hash: nat): State
    requires t in s.locals && s.locals[t].pc.CellCas? && CellsOk(s, s.locals[t].pc.cur) && |s.locals[t].args| > 0
    reads {}
  {
    var CellCas(v, mode, cur, seen) := s.locals[t].pc;
    var c := Cell(s, t, cur);
    if s.cells[c] == seen then Applied(s.(cells := s.cells[c := seen + v]), t)
    else if mode.Fast? then At(s, t, Top(v, Slow(false, true), Some(cur)))
    else if mode.contended && |cur| < STRIPE_LIMIT then At(Alloc(s, cur), t, Grow(v, mode, cur, Expanded(s, cur)))
    else
      s.(locals := s.locals[t := s.locals[t].(hash := hash, pc := Top(v, mode.(contended := true), Some(cur)))])
  }

  function DoTop(s: State, t: Tid): State
    requires t in s.locals && s.locals[t].pc.Top? && s.locals[t].pc.mode.Slow?
    reads {}
  {
    var Top(v, mode, cur) := s.locals[t].pc;
    if cur.None? then At(Alloc(s, []), t, Create(v, mode, Expanded(s, [])))
    else At(s, t, if mode.load then Guard(v, mode) else CellLoad(v, mode, cur.value))
  }

  /** The loser of the race deletes its table and keeps the stale pointer, which it then reloads. */
  function DoCreate(s: State, t: Tid): State
    requires t in s.locals && s.locals[t].pc.Create? && s.locals[t].pc.mode.Slow?
    reads {}
  {
    var Create(v, mode, made) := s.locals[t].pc;
    if s.stripes.None? then At(s.(stripes := Some(made)), t, CellLoad(v, mode.(load := false), made))
    else At(s, t, Top(v, mode, Some(made)))
  }

  /** A failed compare-exchange loads the table it found into cur. */
  function DoGrow(s: State, t: Tid): State
    requires t in s.locals && s.locals[t].pc.Grow?
    reads {}
  {
    var Grow(v, mode, cur, next) := s.locals[t].pc;
    if s.stripes == Some(cur) then At(s.(stripes := Some(next)), t, Top(v, mode, Some(cur)))
    else At(s, t, Top(v, mode, s.stripes))
  }

  function DoReadTable(s: State, t: Tid): State
    requires t in s.locals && s.locals[t].pc.ReadTable?
    reads {}
  {
    var ReadTable(sum) := s.locals[t].pc;
    At(s, t, if s.stripes.None? then Read(sum) else ReadCheck(sum, s.stripes.value))
  }

  function DoReadCheck(s: State, t: Tid): State
    requires t in s.locals && s.locals[t].pc.ReadCheck?
    reads {}
  {
    var ReadCheck(sum, cur) := s.locals[t].pc;
    At(s, t, if s.stripes == Some(cur) then ReadCell(sum, cur, 0) else ReadTable(sum))
  }

  function DoReadCell(s: State, t: Tid): State
    requires t in s.locals && s.locals[t].pc.ReadCell? && CellsOk(s, s.locals[t].pc.cur)
    reads {}
  {
    var ReadCell(sum, cur, i) := s.locals[t].pc;
    At(s, t, if i < |cur| then ReadCell(sum + s.cells[cur[i]], cur, i + 1) else Read(sum))
  }

  /** The table whose cells the next access goes through. */
  function Used(pc: Pc): Option<Table>
    reads {}
  {
    match pc
    case CellLoad(_, _, cur) => Some(cur)
    case CellCas(_, _, cur, _) => Some(cur)
    case ReadCell(_, cur, _) => Some(cur)
    case Grow(_, _, cur, _) => Some(cur)
    case Top(_, mode, cur) => if mode.Slow? && !mode.load then cur else None
    case _ => None
  }

  predicate CanWork(s: State, t: Tid)
    reads {}
  {
    && t in s.locals
    && (Used(s.locals[t].pc).Some? ==> CellsOk(s, Used(s.locals[t].pc).value))
    && (Adding(s.locals[t].pc) ==> |s.locals[t].args| > 0)
    && (s.locals[t].pc.Top? || s.locals[t].pc.Create? ==> s.locals[t].pc.mode.Slow?)
  }

  function Work(s: State, t: Tid, hash: nat): State
    requires CanWork(s, t)
    reads {}
  {
    var pc := s.locals[t].pc;
    match pc
    case Start(_) => DoStart(s, t)
    case BaseLoad(v) => At(s, t, BaseCas(v, s.base))
    case BaseCas(_, _) => DoBaseCas(s, t)
    case Guard(v, mode) => At(s, t, Recheck(v, mode, s.stripes))
    case Recheck(_, _, _) => DoRecheck(s, t)
    case CellLoad(_, _, _) => DoCellLoad(s, t)
    case CellCas(_, _, _, _) => DoCellCas(s, t, hash)
    case Top(_, _, _) => DoTop(s, t)
    case Create(_, _, _) => DoCreate(s, t)
    case Grow(_, _, _, _) => DoGrow(s, t)
    case ReadBase => At(s, t, ReadTable(s.base))
    case ReadTable(_) => DoReadTable(s, t)
    case ReadCheck(_, _) => DoReadCheck(s, t)
    case ReadCell(_, _, _) => DoReadCell(s, t)
    case _ => s
  }

  function InvokeAdd(s: State, t: Tid, v: int): State
    requires t in s.locals
    reads {}
  {
    s.(locals := s.locals[t := s.locals[t].(args := s.locals[t].args + [v], pc := Start(v))])
  }

  ghost predicate Next(s: State, s': State, t: Tid)
    reads {}
  {
    t in s.locals &&
    if s.locals[t].pc.Idle? || s.locals[t].pc.Read? then
      (exists v :: s' == InvokeAdd(s, t, v)) || s' == At(s, t, ReadBase)
    else
      CanWork(s, t) && exists hash :: s' == Work(s, t, hash)
  }

  // ---------------------------------------------------------------- invariant

  /** The cells a thread has allocated and not yet published. */
  function Made(pc: Pc): set<nat>
    reads {}
  {
    match pc
    case Create(_, _, made) => set c | c in made
    case Grow(_, _, cur, next) => if |cur| <= |next| then set c | c in next[|cur|..] else {}
    case _ => {}
  }

  ghost predicate Distinct(table: Table)
    reads {}
  {
    forall i, j :: 0 <= i < j < |table| ==> table[i] != table[j]
  }

  ghost predicate TableOk(s: State, table: Table)
    reads {}
  {
    && CellsOk(s, table) && Distinct(table) && IsPow2(|table|) && |table| >= 2
  }

  predicate IsPow2(n: nat)
    reads {}
  {
    n == 1 || (n > 1 && n % 2 == 0 && IsPow2(n / 2))
  }

  /** What a thread's location says of the tables it has in hand. */
  ghost predicate PcOk(s: State, pc: Pc)
    reads {}
  {
    && (Used(pc).Some? ==> s.stripes.Some? && Used(pc).value <= s.stripes.value && TableOk(s, Used(pc).value))
    && (pc.Top? || pc.Create? || pc.Grow? ==> pc.mode.Slow?)
    && (pc.Top? && pc.hand.None? ==> pc.mode.load)
    && (pc.Create? ==> pc.mode.load)
    && (pc.Recheck? ==> s.stripes.Some?)
    && (pc.ReadCheck? ==> s.stripes.Some?)
    && (pc.Guard? || (pc.Top? && pc.hand.Some?) ==> s.stripes.Some?)
    && (pc.Create? ==> TableOk(s, pc.made) && |pc.made| == 2)
    && (pc.Grow? ==> TableOk(s, pc.next) && |pc.next| == 2 * |pc.cur| && pc.cur <= pc.next)
    && (pc.ReadCell? ==> pc.i <= |pc.cur|)
  }

  ghost predicate Fresh(s: State, pc: Pc)
    reads {}
  {
    forall c :: c in Made(pc) ==> c < |s.cells| && s.cells[c] == 0 && c !in Current(s)
  }

  ghost predicate Apart(s: State)
    reads {}
  {
    forall t, u :: t in s.locals && u in s.locals && t != u ==> Made(s.locals[t].pc) !! Made(s.locals[u].pc)
  }

  ghost predicate Conserved(s: State)
    requires Within(Current(s), |s.cells|)
    reads {}
  {
    s.base + Sum(s.cells, Current(s)) == Total(s.log)
  }

  ghost predicate Tables(s: State)
    reads {}
  {
    && (s.stripes.Some? ==> TableOk(s, s.stripes.value))
    && (forall t :: t in s.locals ==> PcOk(s, s.locals[t].pc) && Fresh(s, s.locals[t].pc))
    && Apart(s)
  }

  /** The log holds the finished adds, each once and with its own argument, and nothing else. */
  ghost predicate LogOk(s: State)
    reads {}
  {
    && (forall t :: t in s.locals && Adding(s.locals[t].pc) ==>
          |s.locals[t].args| > 0 && s.locals[t].pc.v == s.locals[t].args[|s.locals[t].args| - 1])
    && (forall e :: e in s.log ==> e.t in s.locals && e.n < Finished(s, e.t) && e.v == s.locals[e.t].args[e.n])
    && (forall t, n: nat {:trigger s.locals[t].args[n]} :: t in s.locals && n < Finished(s, t) ==>
         Entry(t, n, s.locals[t].args[n]) in s.log)
    && (forall i, j :: 0 <= i < j < |s.log| ==> s.log[i] != s.log[j])
  }

  /** How many of t's adds have returned. */
  function Finished(s: State, t: Tid): (n: int)
    requires t in s.locals
    reads {}
  {
    |s.locals[t].args| - if Adding(s.locals[t].pc) then 1 else 0
  }

  ghost predicate Inv(s: State)
    reads {}
  {
    Tables(s) && Conserved(s) && LogOk(s)
  }

  /** A new counter has no table, or one of any power-of-two size if it was given a size. */
  ghost predicate Init(s: State)
    reads {}
  {
    && s.base == 0 && s.log == [] && (forall c :: 0 <= c < |s.cells| ==> s.cells[c] == 0)
    && (s.stripes.Some? ==> TableOk(s, s.stripes.value))
    && (forall t :: t in s.locals ==> s.locals[t].pc.Idle? && s.locals[t].args == [])
  }
}
