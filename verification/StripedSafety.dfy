/** Growth never loses an update: every step of the striped counter keeps its invariant. */
module StripedSafety {
  import opened Words
  import opened Striped64

  // ---------------------------------------------------------------- sums

  lemma {:induction false} SumAppend(cells: seq<int>, a: Table, b: Table)
    requires Within(a, |cells|) && Within(b, |cells|)
    ensures Within(a + b, |cells|) && Sum(cells, a + b) == Sum(cells, a) + Sum(cells, b)
  {
    if a == [] {
      assert a + b == b;
    } else {
      assert (a + b)[1..] == a[1..] + b;
      SumAppend(cells, a[1..], b);
    }
  }

  lemma {:induction false} SumSame(cells: seq<int>, cells': seq<int>, table: Table)
    requires Within(table, |cells|) && |cells| <= |cells'|
    requires forall i :: 0 <= i < |table| ==> cells'[table[i]] == cells[table[i]]
    ensures Within(table, |cells'|) && Sum(cells', table) == Sum(cells, table)
  {
    if table != [] {
      assert forall i :: 0 <= i < |table[1..]| ==> table[1..][i] == table[i + 1];
      SumSame(cells, cells', table[1..]);
    }
  }

  lemma {:induction false} SumPut(cells: seq<int>, table: Table, i: nat, v: int)
    requires Within(table, |cells|) && Distinct(table) && i < |table|
    ensures Within(table, |cells[table[i] := v]|)
    ensures Sum(cells[table[i] := v], table) == Sum(cells, table) - cells[table[i]] + v
  {
    var cells' := cells[table[i] := v];
    if i == 0 {
      SumSame(cells, cells', table[1..]);
    } else {
      assert table[1..][i - 1] == table[i];
      SumPut(cells, table[1..], i - 1, v);
    }
  }

  lemma {:induction false} SumZero(cells: seq<int>, table: Table)
    requires Within(table, |cells|) && forall i :: 0 <= i < |table| ==> cells[table[i]] == 0
    ensures Sum(cells, table) == 0
  {
    if table != [] {
      SumZero(cells, table[1..]);
    }
  }

  lemma TotalAppend(log: seq<Entry>, e: Entry)
    ensures Total(log + [e]) == Total(log) + e.v
  {
    assert (log + [e])[..|log|] == log;
  }

  // ---------------------------------------------------------------- what the other threads know

  ghost predicate Grows(s: State, s': State)
    reads {}
  {
    && |s.cells| <= |s'.cells|
    && (s.stripes.Some? ==> s'.stripes.Some? && s.stripes.value <= s'.stripes.value)
  }

  lemma PcStays(s: State, s': State, pc: Pc)
    requires PcOk(s, pc) && Grows(s, s')
    ensures PcOk(s', pc)
  {
  }

  /** A step of t adds to the cells, may extend the table, and writes no other thread's unpublished cell. */
  ghost predicate Frame(s: State, s': State, t: Tid)
    reads {}
  {
    && t in s.locals && t in s'.locals && s'.locals == s.locals[t := s'.locals[t]] && Grows(s, s')
    && (forall u {:trigger s.locals[u]} :: u in s.locals && u != t ==> Fresh(s', s.locals[u].pc))
    && (s'.stripes.Some? ==> TableOk(s', s'.stripes.value))
  }

  lemma TablesKept(s: State, s': State, t: Tid)
    requires Tables(s) && Frame(s, s', t)
    requires PcOk(s', s'.locals[t].pc) && Fresh(s', s'.locals[t].pc)
    requires forall u {:trigger s.locals[u]} :: u in s.locals && u != t ==>
               Made(s'.locals[t].pc) !! Made(s.locals[u].pc)
    ensures Tables(s')
  {
    forall u | u in s'.locals ensures PcOk(s', s'.locals[u].pc) && Fresh(s', s'.locals[u].pc) {
      if u != t { PcStays(s, s', s.locals[u].pc); }
    }
  }

  // ---------------------------------------------------------------- steps that only move t

  lemma LogStays(s: State, s': State, t: Tid)
    requires LogOk(s) && t in s.locals && t in s'.locals && s'.locals == s.locals[t := s'.locals[t]] && s'.log == s.log
    requires s'.locals[t].args == s.locals[t].args && Adding(s'.locals[t].pc) == Adding(s.locals[t].pc)
    requires Adding(s.locals[t].pc) ==> s'.locals[t].pc.v == s.locals[t].pc.v
    ensures LogOk(s')
  {
    forall u, n: nat | u in s'.locals && n < Finished(s', u) ensures Entry(u, n, s'.locals[u].args[n]) in s'.log {
      assert s'.locals[u].args[n] == s.locals[u].args[n];
    }
  }

  /** Whoever else has unpublished cells keeps them to itself when nothing shared changes. */
  lemma QuietFrame(s: State, s': State, t: Tid)
    requires Tables(s) && t in s.locals && t in s'.locals && s'.locals == s.locals[t := s'.locals[t]]
    requires s'.cells == s.cells && s'.stripes == s.stripes
    ensures Frame(s, s', t)
  {
  }

  lemma QuietKeepsInv(s: State, t: Tid, l: Local)
    requires Inv(s) && t in s.locals && l.args == s.locals[t].args
    requires Adding(l.pc) == Adding(s.locals[t].pc) && (Adding(l.pc) ==> l.pc.v == s.locals[t].pc.v)
    requires PcOk(s, l.pc) && Made(l.pc) == {}
    ensures Inv(s.(locals := s.locals[t := l]))
  {
    var s' := s.(locals := s.locals[t := l]);
    QuietFrame(s, s', t);
    PcStays(s, s', l.pc);
    LogStays(s, s', t);
    TablesKept(s, s', t);
  }

  // ---------------------------------------------------------------- steps that apply an update

  lemma LogApplied(s: State, s': State, t: Tid)
    requires LogOk(s) && t in s.locals && Adding(s.locals[t].pc) && |s.locals[t].args| > 0
    requires s'.log == s.log + [Entry(t, |s.locals[t].args| - 1, s.locals[t].pc.v)]
    requires s'.locals == s.locals[t := s.locals[t].(pc := Idle)]
    ensures LogOk(s')
  {
    var e := Entry(t, |s.locals[t].args| - 1, s.locals[t].pc.v);
    assert e !in s.log;
    forall u, n: nat | u in s'.locals && n < Finished(s', u) ensures Entry(u, n, s'.locals[u].args[n]) in s'.log {
      if !(u == t && n == |s.locals[t].args| - 1) {
        assert Entry(u, n, s.locals[u].args[n]) in s.log;
      } else {
        assert s'.log[|s.log|] == e;
      }
    }
  }

  /** An add that is over: its amount is in the base or in a cell of the current table. */
  lemma AddKeepsInv(s: State, s': State, t: Tid)
    requires Inv(s) && t in s.locals && Adding(s.locals[t].pc) && |s.locals[t].args| > 0 && Frame(s, s', t)
    requires s'.locals == s.locals[t := s.locals[t].(pc := Idle)] && s'.stripes == s.stripes
    requires s'.log == s.log + [Entry(t, |s.locals[t].args| - 1, s.locals[t].pc.v)]
    requires |s'.cells| == |s.cells| && Within(Current(s), |s.cells|)
    requires s'.base + Sum(s'.cells, Current(s)) == s.base + Sum(s.cells, Current(s)) + s.locals[t].pc.v
    ensures Inv(s')
  {
    assert Tables(s) && LogOk(s) && Conserved(s);
    hide Inv, Sum, Within, Distinct, IsPow2, Frame;
    LogApplied(s, s', t);
    TotalAppend(s.log, Entry(t, |s.locals[t].args| - 1, s.locals[t].pc.v));
    hide LogOk, Total;
    TablesKept(s, s', t);
  }

  lemma BaseKeepsInv(s: State, t: Tid)
    requires Inv(s) && CanWork(s, t) && s.locals[t].pc.BaseCas?
    ensures Inv(DoBaseCas(s, t))
  {
    var BaseCas(v, seen) := s.locals[t].pc;
    var s' := DoBaseCas(s, t);
    if s.base == seen {
      QuietFrame(s, s', t);
      assert Within(Current(s), |s.cells|);
      hide Inv, Sum, Within, Frame, Tables;
      AddKeepsInv(s, s', t);
    } else {
      QuietKeepsInv(s, t, s'.locals[t]);
    }
  }

  /** An update through any prefix of the current table, superseded or not, lands in the current table. */
  lemma UpdateLands(s: State, cur: Table, c: nat, v: int)
    requires s.stripes.Some? && TableOk(s, s.stripes.value) && cur <= s.stripes.value && c in cur
    ensures c < |s.cells|
    ensures Within(Current(s), |s.cells|)
    ensures Sum(s.cells[c := v], Current(s)) == Sum(s.cells, Current(s)) - s.cells[c] + v
  {
    var i :| 0 <= i < |cur| && cur[i] == c;
    SumPut(s.cells, s.stripes.value, i, v);
  }

  lemma CellFrame(s: State, s': State, t: Tid, c: nat)
    requires Tables(s) && t in s.locals && t in s'.locals && s'.locals == s.locals[t := s'.locals[t]]
    requires c in Current(s) && |s'.cells| == |s.cells| && s'.stripes == s.stripes
    requires forall i :: 0 <= i < |s.cells| && i != c ==> s'.cells[i] == s.cells[i]
    ensures Frame(s, s', t)
  {
  }

  lemma CellCasKeepsInv(s: State, t: Tid, hash: nat)
    requires Inv(s) && CanWork(s, t) && s.locals[t].pc.CellCas?
    requires s.cells[Cell(s, t, s.locals[t].pc.cur)] == s.locals[t].pc.seen
    ensures Inv(DoCellCas(s, t, hash))
  {
    hide Inv, Sum, Cell, TableOk, Within;
    CellInTable(s, t);
    CellApplied(s, DoCellCas(s, t, hash), t, Cell(s, t, s.locals[t].pc.cur));
  }

  /** The cell a thread is about to update is one of the current table's. */
  lemma CellInTable(s: State, t: Tid)
    requires Inv(s) && CanWork(s, t) && s.locals[t].pc.CellCas?
    ensures var cur := s.locals[t].pc.cur;
            && s.stripes.Some? && TableOk(s, s.stripes.value) && cur <= s.stripes.value
            && Cell(s, t, cur) in Current(s) && Within(Current(s), |s.cells|) && Cell(s, t, cur) < |s.cells|
            && Adding(s.locals[t].pc) && cur != []
  {
    assert PcOk(s, s.locals[t].pc);
    hide Cell;
  }

  /** One cell of the current table takes its add, which is over. */
  lemma CellApplied(s: State, s': State, t: Tid, c: nat)
    requires Inv(s) && t in s.locals && Adding(s.locals[t].pc) && |s.locals[t].args| > 0
    requires c in Current(s) && c < |s.cells| && s'.cells == s.cells[c := s.cells[c] + s.locals[t].pc.v]
    requires s'.base == s.base && s'.stripes == s.stripes && s'.locals == s.locals[t := s.locals[t].(pc := Idle)]
    requires s'.log == s.log + [Entry(t, |s.locals[t].args| - 1, s.locals[t].pc.v)]
    ensures Inv(s')
  {
    UpdateLands(s, Current(s), c, s.cells[c] + s.locals[t].pc.v);
    CellFrame(s, s', t, c);
    hide Inv, Sum, Frame, Tables;
    AddKeepsInv(s, s', t);
  }

  // ---------------------------------------------------------------- a new table

  lemma Pow2Double(n: nat)
    requires IsPow2(n)
    ensures IsPow2(2 * n)
  {
    assert 2 * n / 2 == n;
  }

  lemma ExpandedDistinct(s: State, cur: Table)
    requires cur == [] || TableOk(s, cur)
    ensures Distinct(Expanded(s, cur)) && Within(Expanded(s, cur), |Alloc(s, cur).cells|)
  {
    hide IsPow2;
    var next := Expanded(s, cur);
    forall i, j | 0 <= i < j < |next| ensures next[i] != next[j] {
      if j < |cur| {
        assert next[i] == cur[i] && next[j] == cur[j];
      } else {
        assert next[j] == |s.cells| + (j - |cur|);
        if i < |cur| { assert next[i] == cur[i] < |s.cells|; }
      }
    }
    forall i | 0 <= i < |next| ensures next[i] < |Alloc(s, cur).cells| {
      if i < |cur| { assert next[i] == cur[i]; }
    }
  }

  lemma ExpandedOk(s: State, cur: Table)
    requires cur == [] || TableOk(s, cur)
    ensures var s', next := Alloc(s, cur), Expanded(s, cur);
            && TableOk(s', next) && cur <= next && |next| == (if cur == [] then 2 else 2 * |cur|)
            && (forall c :: c in next[|cur|..] <==> |s.cells| <= c < |s'.cells|)
  {
    ExpandedDistinct(s, cur);
    if cur != [] { Pow2Double(|cur|); }
    hide Distinct, Within, IsPow2;
    var s', next := Alloc(s, cur), Expanded(s, cur);
    assert next[|cur|..] == Range(|s.cells|, if cur == [] then 2 else |cur|);
    forall c | |s.cells| <= c < |s'.cells| ensures c in next[|cur|..] {
      assert next[|cur|..][c - |s.cells|] == c;
    }
    assert cur == [] ==> IsPow2(2) by { TwoIsPow2(); }
  }

  lemma TwoIsPow2()
    ensures IsPow2(2)
  {
    assert IsPow2(1);
  }

  lemma AllocFrame(s: State, s': State, t: Tid, k: nat)
    requires Tables(s) && t in s.locals && t in s'.locals && s'.locals == s.locals[t := s'.locals[t]]
    requires s'.cells == s.cells + Zeros(k) && s'.stripes == s.stripes
    ensures Frame(s, s', t)
  {
  }

  lemma AllocKeepsInv(s: State, t: Tid, cur: Table, pc: Pc)
    requires Inv(s) && t in s.locals && Adding(s.locals[t].pc) && (pc.Create? || pc.Grow?) && pc.v == s.locals[t].pc.v
    requires cur == [] || (s.stripes.Some? && cur <= s.stripes.value && TableOk(s, cur))
    requires pc.mode.Slow?
    requires if cur == [] then pc == Create(pc.v, pc.mode, Expanded(s, [])) && pc.mode.load
             else pc == Grow(pc.v, pc.mode, cur, Expanded(s, cur))
    ensures Inv(At(Alloc(s, cur), t, pc))
  {
    var s' := At(Alloc(s, cur), t, pc);
    var k := if cur == [] then 2 else |cur|;
    ExpandedOk(s, cur);
    AllocFrame(s, s', t, k);
    AllocAccounts(s, t, cur, pc);
    hide Conserved, LogOk, Distinct, IsPow2, Sum, Total;
    MadeFresh(s, s', cur, pc);
    TablesKept(s, s', t);
  }

  lemma AllocAccounts(s: State, t: Tid, cur: Table, pc: Pc)
    requires Inv(s) && t in s.locals && Adding(s.locals[t].pc) && (pc.Create? || pc.Grow?) && pc.v == s.locals[t].pc.v
    ensures var s' := At(Alloc(s, cur), t, pc); Within(Current(s'), |s'.cells|) && Conserved(s') && LogOk(s')
  {
    var s' := At(Alloc(s, cur), t, pc);
    assert Within(Current(s), |s.cells|) && Conserved(s) && LogOk(s);
    hide Inv, Sum, Total;
    SumSame(s.cells, s'.cells, Current(s));
    hide Within, Conserved;
    LogStays(s, s', t);
  }

  lemma MadeFresh(s: State, s': State, cur: Table, pc: Pc)
    requires Tables(s) && s'.cells == s.cells + Zeros(if cur == [] then 2 else |cur|) && s'.stripes == s.stripes
    requires if cur == [] then pc.Create? && pc.made == Expanded(s, [])
             else pc.Grow? && pc.cur == cur && pc.next == Expanded(s, cur)
    ensures Fresh(s', pc) && forall u {:trigger s.locals[u]} :: u in s.locals ==> Made(pc) !! Made(s.locals[u].pc)
  {
    assert forall c :: c in Made(pc) ==> |s.cells| <= c < |s'.cells|;
    forall u | u in s.locals ensures Made(pc) !! Made(s.locals[u].pc) {
      assert Fresh(s, s.locals[u].pc);
    }
  }

  // ---------------------------------------------------------------- publishing a table

  /** The published cells were t's own, so nobody else's unpublished cells join the table. */
  lemma PublishFrame(s: State, s': State, t: Tid, made: Table)
    requires Tables(s) && t in s.locals && t in s'.locals && s'.locals == s.locals[t := s'.locals[t]]
    requires s'.cells == s.cells && s'.stripes == Some(Current(s) + made) && TableOk(s, Current(s) + made)
    requires forall c :: c in made ==> c in Made(s.locals[t].pc)
    ensures Frame(s, s', t)
  {
    forall u | u in s.locals && u != t ensures Fresh(s', s.locals[u].pc) {
      assert Made(s.locals[t].pc) !! Made(s.locals[u].pc);
      assert Fresh(s, s.locals[u].pc);
    }
  }

  lemma PublishSum(s: State, t: Tid, made: Table)
    requires Tables(s) && t in s.locals && TableOk(s, Current(s) + made)
    requires forall c :: c in made ==> c in Made(s.locals[t].pc)
    ensures Sum(s.cells, Current(s) + made) == Sum(s.cells, Current(s))
  {
    assert Fresh(s, s.locals[t].pc);
    assert forall i :: 0 <= i < |made| ==> made[i] == (Current(s) + made)[|Current(s)| + i];
    SumZero(s.cells, made);
    SumAppend(s.cells, Current(s), made);
  }

  /** t's compare-exchange on stripes_ succeeds. */
  lemma PublishKeepsInv(s: State, s': State, t: Tid, made: Table, pc: Pc)
    requires Inv(s) && t in s.locals && s' == At(s.(stripes := Some(Current(s) + made)), t, pc)
    requires TableOk(s, Current(s) + made) && forall c :: c in made ==> c in Made(s.locals[t].pc)
    requires Adding(s.locals[t].pc) && Adding(pc) && pc.v == s.locals[t].pc.v
    requires PcOk(s', pc) && Made(pc) == {}
    ensures Inv(s')
  {
    hide PcOk, IsPow2, Distinct;
    PublishFrame(s, s', t, made);
    PublishSum(s, t, made);
    LogStays(s, s', t);
    hide LogOk, Frame;
    TablesKept(s, s', t);
  }

  lemma CreateKeepsInv(s: State, t: Tid)
    requires Inv(s) && CanWork(s, t) && s.locals[t].pc.Create?
    ensures Inv(DoCreate(s, t))
  {
    var Create(v, mode, made) := s.locals[t].pc;
    var s' := DoCreate(s, t);
    assert PcOk(s, s.locals[t].pc);
    if s.stripes.None? {
      assert Current(s) + made == made;
      hide Inv, LogOk;
      PublishKeepsInv(s, s', t, made, s'.locals[t].pc);
    } else {
      QuietKeepsInv(s, t, s'.locals[t]);
    }
  }

  lemma GrowKeepsInv(s: State, t: Tid)
    requires Inv(s) && CanWork(s, t) && s.locals[t].pc.Grow?
    ensures Inv(DoGrow(s, t))
  {
    hide LogOk, Conserved, Apart, Fresh, Distinct, IsPow2;
    var Grow(v, mode, cur, next) := s.locals[t].pc;
    var s' := DoGrow(s, t);
    assert PcOk(s, s.locals[t].pc);
    hide Inv;
    if s.stripes == Some(cur) {
      var made := next[|cur|..];
      assert cur + made == next;
      PublishKeepsInv(s, s', t, made, s'.locals[t].pc);
    } else {
      QuietKeepsInv(s, t, s'.locals[t]);
    }
  }

  // ---------------------------------------------------------------- every step

  lemma CellCasFails(s: State, t: Tid, hash: nat)
    requires Inv(s) && CanWork(s, t) && s.locals[t].pc.CellCas?
    requires s.cells[Cell(s, t, s.locals[t].pc.cur)] != s.locals[t].pc.seen
    ensures Inv(DoCellCas(s, t, hash))
  {
    hide LogOk, Conserved;
    var CellCas(v, mode, cur, seen) := s.locals[t].pc;
    var s' := DoCellCas(s, t, hash);
    assert PcOk(s, s.locals[t].pc);
    hide Inv;
    if mode.Slow? && mode.contended && |cur| < STRIPE_LIMIT {
      AllocKeepsInv(s, t, cur, Grow(v, mode, cur, Expanded(s, cur)));
    } else {
      QuietKeepsInv(s, t, s'.locals[t]);
    }
  }

  lemma TopKeepsInv(s: State, t: Tid)
    requires Inv(s) && CanWork(s, t) && s.locals[t].pc.Top?
    ensures Inv(DoTop(s, t))
  {
    hide LogOk, Conserved;
    var Top(v, mode, cur) := s.locals[t].pc;
    assert PcOk(s, s.locals[t].pc);
    hide Inv;
    if cur.None? {
      AllocKeepsInv(s, t, [], Create(v, mode, Expanded(s, [])));
    } else {
      QuietKeepsInv(s, t, DoTop(s, t).locals[t]);
    }
  }

  lemma MoveKeepsInv(s: State, t: Tid)
    requires Inv(s) && CanWork(s, t)
    requires var pc := s.locals[t].pc;
             pc.Start? || pc.BaseLoad? || pc.Guard? || pc.Recheck? || pc.CellLoad? || pc.ReadBase? || pc.ReadTable?
                 || pc.ReadCheck? || pc.ReadCell?
    ensures Inv(Work(s, t, 0))
  {
    hide LogOk, Conserved;
    assert PcOk(s, s.locals[t].pc);
    assert s.stripes.Some? ==> TableOk(s, s.stripes.value);
    hide Inv;
    QuietKeepsInv(s, t, Work(s, t, 0).locals[t]);
  }

  lemma WorkKeepsInv(s: State, t: Tid, hash: nat)
    requires Inv(s) && CanWork(s, t) && !s.locals[t].pc.Idle? && !s.locals[t].pc.Read?
    ensures Inv(Work(s, t, hash))
  {
    hide Inv;
    var pc := s.locals[t].pc;
    if pc.BaseCas? {
      BaseKeepsInv(s, t);
    } else if pc.CellCas? {
      if s.cells[Cell(s, t, pc.cur)] == pc.seen { CellCasKeepsInv(s, t, hash); } else { CellCasFails(s, t, hash); }
    } else if pc.Top? {
      TopKeepsInv(s, t);
    } else if pc.Create? {
      CreateKeepsInv(s, t);
    } else if pc.Grow? {
      GrowKeepsInv(s, t);
    } else {
      MoveKeepsInv(s, t);
    }
  }

  lemma LogInvoked(s: State, s': State, t: Tid, v: int)
    requires LogOk(s) && t in s.locals && !Adding(s.locals[t].pc) && s' == InvokeAdd(s, t, v)
    ensures LogOk(s')
  {
    assert forall u, n: nat {:trigger s'.locals[u].args[n]} :: u in s.locals && n < |s.locals[u].args| ==>
        s'.locals[u].args[n] == s.locals[u].args[n];
    assert forall u {:trigger Finished(s', u)} :: u in s.locals ==> Finished(s', u) == Finished(s, u);
    forall e | e in s'.log ensures e.t in s'.locals && e.n < Finished(s', e.t) && e.v == s'.locals[e.t].args[e.n] {
      assert e in s.log && e.n < |s.locals[e.t].args|;
    }
    forall u, n: nat | u in s'.locals && n < Finished(s', u) ensures Entry(u, n, s'.locals[u].args[n]) in s'.log {
      assert s'.locals[u].args[n] == s.locals[u].args[n];
    }
  }

  lemma InvokeKeepsInv(s: State, t: Tid, v: int)
    requires Inv(s) && t in s.locals && (s.locals[t].pc.Idle? || s.locals[t].pc.Read?)
    ensures Inv(InvokeAdd(s, t, v))
  {
    hide LogOk, Frame, Tables;
    var s' := InvokeAdd(s, t, v);
    QuietFrame(s, s', t);
    StartOk(s', v);
    TablesKept(s, s', t);
    LogInvoked(s, s', t, v);
  }

  lemma StartOk(s: State, v: int)
    ensures PcOk(s, Start(v)) && Fresh(s, Start(v)) && Made(Start(v)) == {}
  {
  }

  lemma NextKeepsInv(s: State, s': State, t: Tid)
    requires Inv(s) && Next(s, s', t)
    ensures Inv(s')
  {
    hide Inv, Work, CanWork;
    if s.locals[t].pc.Idle? || s.locals[t].pc.Read? {
      if s' == At(s, t, ReadBase) {
        QuietKeepsInv(s, t, s.locals[t].(pc := ReadBase));
      } else {
        var v :| s' == InvokeAdd(s, t, v);
        InvokeKeepsInv(s, t, v);
      }
    } else {
      var hash :| s' == Work(s, t, hash);
      WorkKeepsInv(s, t, hash);
    }
  }

  lemma InitInv(s: State)
    requires Init(s)
    ensures Inv(s)
  {
    SumZero(s.cells, Current(s));
  }

  /** In a reachable state no thread is ever stuck for want of a cell: the masked index is in range. */
  lemma CanAlwaysWork(s: State, t: Tid)
    requires Inv(s) && t in s.locals
    ensures CanWork(s, t)
  {
    assert PcOk(s, s.locals[t].pc);
  }
}
