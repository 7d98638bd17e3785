/** What the striped counter promises its callers, over whole runs. */
module StripedReader {
  import opened Words
  import opened Striped64
  import opened StripedSafety

  // ---------------------------------------------------------------- amounts that are not negative

  /** Every quantity added so far, and every quantity about to be added, is at least 0. */
  ghost predicate NonNegative(s: State)
    reads {}
  {
    && s.base >= 0
    && (forall c :: 0 <= c < |s.cells| ==> s.cells[c] >= 0)
    && (forall t :: t in s.locals && Adding(s.locals[t].pc) ==> s.locals[t].pc.v >= 0)
  }

  /** Nothing shrinks. */
  ghost predicate Rises(s: State, s': State)
    reads {}
  {
    && Grows(s, s') && s.base <= s'.base
    && (forall c :: 0 <= c < |s.cells| ==> s.cells[c] <= s'.cells[c])
    && (forall c :: 0 <= c < |s'.cells| ==> s'.cells[c] >= 0)
  }

  lemma {:induction false} SumRises(cells: seq<int>, cells': seq<int>, table: Table)
    requires Within(table, |cells|) && |cells| <= |cells'|
    requires forall c :: 0 <= c < |cells| ==> cells[c] <= cells'[c]
    ensures Within(table, |cells'|) && Sum(cells, table) <= Sum(cells', table)
  {
    if table != [] {
      SumRises(cells, cells', table[1..]);
    }
  }

  lemma {:induction false} SumNonNegative(cells: seq<int>, table: Table)
    requires Within(table, |cells|) && forall c :: 0 <= c < |cells| ==> cells[c] >= 0
    ensures Sum(cells, table) >= 0
  {
    if table != [] {
      SumNonNegative(cells, table[1..]);
    }
  }

  /** A table is worth no less than any table it grew from, at any earlier time. */
  lemma PrefixSum(s: State, s': State, a: Table, b: Table)
    requires Rises(s, s') && Within(a, |s.cells|) && a <= b && Within(b, |s'.cells|)
    ensures Sum(s.cells, a) <= Sum(s'.cells, b)
  {
    SumRises(s.cells, s'.cells, a);
    assert b == a + b[|a|..];
    assert Within(b[|a|..], |s'.cells|);
    SumAppend(s'.cells, a, b[|a|..]);
    SumNonNegative(s'.cells, b[|a|..]);
  }

  lemma TablesOf(s: State)
    requires Inv(s)
    ensures Tables(s) && forall t :: t in s.locals ==> PcOk(s, s.locals[t].pc)
  {
  }

  lemma ReadOneCell(cells: seq<int>, cur: Table, i: nat)
    requires Within(cur, |cells|) && i < |cur|
    ensures Within(cur[i..], |cells|) && Within(cur[i + 1..], |cells|) && Within(cur[..i], |cells|)
    ensures Within(cur[..i + 1], |cells|)
    ensures Sum(cells, cur[i..]) == cells[cur[i]] + Sum(cells, cur[i + 1..])
    ensures Sum(cells, cur[..i + 1]) == Sum(cells, cur[..i]) + cells[cur[i]]
  {
    assert cur[i..][1..] == cur[i + 1..];
    assert cur[..i + 1] == cur[..i] + [cur[i]];
    SumAppend(cells, cur[..i], [cur[i]]);
    assert Sum(cells, [cur[i]]) == cells[cur[i]] + Sum(cells, []);
  }

  // ---------------------------------------------------------------- any step

  ghost predicate ArgsNonNegative(s: State)
    reads {}
  {
    forall t, n {:trigger s.locals[t].args[n]} :: t in s.locals && 0 <= n < |s.locals[t].args| ==>
        s.locals[t].args[n] >= 0
  }

  lemma WorkRises(s: State, t: Tid, hash: nat)
    requires Inv(s) && NonNegative(s) && CanWork(s, t)
    ensures Rises(s, Work(s, t, hash))
  {
    hide LogOk, Conserved, Apart, Fresh, Distinct, IsPow2;
    assert PcOk(s, s.locals[t].pc);
  }

  lemma NextRises(s: State, s': State, t: Tid)
    requires Inv(s) && NonNegative(s) && Next(s, s', t) && ArgsNonNegative(s')
    ensures Inv(s') && Rises(s, s') && NonNegative(s')
  {
    NextKeepsInv(s, s', t);
    hide Work, CanWork, Tables, Conserved;
    if !(s.locals[t].pc.Idle? || s.locals[t].pc.Read?) {
      var hash :| s' == Work(s, t, hash);
      WorkRises(s, t, hash);
    }
  }

  /** Adds stay adds or end; only the reader's own locations carry a sum. */
  lemma AddersAreNotReaders(s: State, t: Tid, hash: nat)
    requires CanWork(s, t) && Adding(s.locals[t].pc)
    ensures var pc' := Work(s, t, hash).locals[t].pc; Adding(pc') || pc'.Idle?
  {
  }

  lemma StepMovesOne(s: State, s': State, t: Tid)
    requires Next(s, s', t)
    ensures t in s.locals && t in s'.locals && s'.locals == s.locals[t := s'.locals[t]]
    ensures s.locals[t].args <= s'.locals[t].args
  {
  }

  // ---------------------------------------------------------------- whole runs

  datatype Run = Run(states: seq<State>, actors: seq<Tid>)

  ghost predicate IsRun(r: Run)
    reads {}
  {
    && |r.states| == |r.actors| + 1
    && Init(r.states[0])
    && (forall i :: 0 <= i < |r.actors| ==> Next(r.states[i], r.states[i + 1], r.actors[i]))
  }

  lemma {:induction false} RunInv(r: Run, n: nat)
    requires IsRun(r) && n < |r.states|
    ensures Inv(r.states[n])
  {
    hide Inv, Next, Init;
    if n == 0 {
      InitInv(r.states[0]);
    } else {
      RunInv(r, n - 1);
      assert Next(r.states[n - 1], r.states[n - 1 + 1], r.actors[n - 1]);
      NextKeepsInv(r.states[n - 1], r.states[n], r.actors[n - 1]);
    }
  }

  /**
   * Growth never loses an update: at every step of interleaved adds and expansions the
   * base plus the cells of the current table is the sum of the updates that succeeded.
   */
  lemma NoUpdateLost(r: Run, n: nat)
    requires IsRun(r) && n < |r.states|
    ensures var s := r.states[n];
            Within(Current(s), |s.cells|) && s.base + Sum(s.cells, Current(s)) == Total(s.log)
  {
    RunInv(r, n);
  }

  /** Each add that returned was applied exactly once, with its own argument; no other add was applied at all. */
  lemma AppliedExactlyOnce(r: Run, n: nat, t: Tid, k: nat)
    requires IsRun(r) && n < |r.states| && t in r.states[n].locals && k < |r.states[n].locals[t].args|
    ensures var s := r.states[n];
            var e := Entry(t, k, s.locals[t].args[k]);
            && multiset(s.log)[e] == (if k == |s.locals[t].args| - 1 && Adding(s.locals[t].pc) then 0 else 1)
            && (forall v :: v != e.v ==> Entry(t, k, v) !in s.log)
  {
    RunInv(r, n);
    hide IsRun;
    var s := r.states[n];
    var e := Entry(t, k, s.locals[t].args[k]);
    assert LogOk(s);
    hide Inv;
    if e in s.log {
      CountOne(s.log, e);
    }
    assert k < Finished(s, t) ==> e in s.log;
  }

  lemma {:induction false} CountOne(log: seq<Entry>, e: Entry)
    requires e in log && forall i, j :: 0 <= i < j < |log| ==> log[i] != log[j]
    ensures multiset(log)[e] == 1
  {
    var n := |log| - 1;
    assert log == log[..n] + [log[n]];
    if log[n] != e {
      CountOne(log[..n], e);
    }
  }

  predicate Reading(pc: Pc)
    reads {}
  {
    pc.ReadTable? || pc.ReadCheck? || pc.ReadCell? || pc.Read?
  }

  lemma NotReadingAtFirst(r: Run)
    requires IsRun(r)
    ensures forall t :: t in r.states[0].locals ==> !Reading(r.states[0].locals[t].pc)
  {
  }

  // ---------------------------------------------------------------- how large tables get

  /** No table, published or about to be, is larger than n. */
  ghost predicate AtMost(s: State, n: nat)
    reads {}
  {
    && |Current(s)| <= n
    && forall t :: t in s.locals ==>
         && (s.locals[t].pc.Create? ==> |s.locals[t].pc.made| <= n)
         && (s.locals[t].pc.Grow? ==> |s.locals[t].pc.next| <= n)
  }

  lemma WorkAtMost(s: State, s': State, t: Tid, hash: nat, n: nat)
    requires CanWork(s, t) && AtMost(s, n) && n >= STRIPE_LIMIT && s' == Work(s, t, hash) && PcOk(s, s.locals[t].pc)
    ensures t in s'.locals && s'.locals == s.locals[t := s'.locals[t]] && |Current(s')| <= n
    ensures s'.locals[t].pc.Create? ==> |s'.locals[t].pc.made| <= n
    ensures s'.locals[t].pc.Grow? ==> |s'.locals[t].pc.next| <= n
  {
    hide Distinct, Within, IsPow2, Cell, Sum;
    if s.locals[t].pc.CellCas? && |s.locals[t].pc.cur| < STRIPE_LIMIT {
      PowersBelow(|s.locals[t].pc.cur|);
    }
  }

  lemma StepAtMost(s: State, s': State, t: Tid, n: nat)
    requires Inv(s) && Next(s, s', t) && AtMost(s, n) && n >= STRIPE_LIMIT
    ensures AtMost(s', n)
  {
    TablesOf(s);
    hide Inv, Work, CanWork, PcOk;
    if !(s.locals[t].pc.Idle? || s.locals[t].pc.Read?) {
      var hash :| s' == Work(s, t, hash);
      WorkAtMost(s, s', t, hash, n);
    }
  }

  lemma PowersBelow(n: nat)
    requires IsPow2(n) && n < STRIPE_LIMIT
    ensures 2 * n <= STRIPE_LIMIT
  {
    assert n == 6 ==> !IsPow2(3);
  }

  /** The size tables may reach in a run from s. */
  function Largest(s: State): (n: nat)
    ensures n >= STRIPE_LIMIT && n >= |Current(s)|
    reads {}
  {
    if |Current(s)| > STRIPE_LIMIT then |Current(s)| else STRIPE_LIMIT
  }

  lemma FirstAtMost(s: State)
    requires Init(s)
    ensures AtMost(s, Largest(s))
  {
  }

  /** No table grows beyond 8 cells, unless the counter was built with a larger one. */
  lemma {:induction false} TablesStaySmall(r: Run, n: nat)
    requires IsRun(r) && n < |r.states|
    ensures AtMost(r.states[n], Largest(r.states[0]))
  {
    hide Inv, Next, AtMost;
    if n == 0 {
      FirstAtMost(r.states[0]);
    } else {
      TablesStaySmall(r, n - 1);
      RunInv(r, n - 1);
      assert Next(r.states[n - 1], r.states[n - 1 + 1], r.actors[n - 1]);
      StepAtMost(r.states[n - 1], r.states[n], r.actors[n - 1], Largest(r.states[0]));
    }
  }

  // ---------------------------------------------------------------- what value() adds up

  /**
   * When a value() read what: the base at step `from`, the table at step `at`, and cell k of
   * the table at step when[k].
   */
  datatype Account = Account(from: nat, at: nat, table: Table, when: seq<nat>)

  /** The thread is in one and the same read from its step `from` on, up to state n. */
  ghost predicate OneRead(r: Run, t: Tid, from: nat, n: nat)
    reads {}
  {
    && from < n < |r.states| && |r.states| == |r.actors| + 1
    && r.actors[from] == t && t in r.states[from].locals && r.states[from].locals[t].pc.ReadBase?
    && (forall m {:trigger r.states[m].locals} :: from < m <= n ==>
          t in r.states[m].locals && Reading(r.states[m].locals[t].pc))
  }

  /** Each cell was read by t at its own instant, in order, after the table; the table was the current one. */
  ghost predicate AccountOk(r: Run, t: Tid, n: nat, a: Account)
    reads {}
  {
    && n < |r.states| && |r.states| == |r.actors| + 1 && a.from < a.at < n && r.actors[a.at] == t
    && Current(r.states[a.at]) == a.table && |a.when| <= |a.table|
    && (forall k {:trigger a.when[k]} :: 0 <= k < |a.when| ==>
          a.at < a.when[k] < n && r.actors[a.when[k]] == t && a.table[k] < |r.states[a.when[k]].cells|)
    && (forall k, m :: 0 <= k < m < |a.when| ==> a.when[k] < a.when[m])
  }

  /** The first m cells of the table, each as it was at its own instant. */
  ghost function Gathered(r: Run, a: Account, m: nat): int
    requires m <= |a.when| <= |a.table|
    requires forall k {:trigger a.when[k]} :: 0 <= k < |a.when| ==>
               a.when[k] < |r.states| && a.table[k] < |r.states[a.when[k]].cells|
    reads {}
  {
    if m == 0 then 0 else Gathered(r, a, m - 1) + r.states[a.when[m - 1]].cells[a.table[m - 1]]
  }

  lemma {:induction false} GatheredSame(r: Run, a: Account, b: Account, m: nat)
    requires m <= |a.when| <= |a.table| && m <= |b.when| <= |b.table| && a.table == b.table
    requires forall k {:trigger a.when[k]} :: 0 <= k < |a.when| ==>
               a.when[k] < |r.states| && a.table[k] < |r.states[a.when[k]].cells|
    requires forall k {:trigger b.when[k]} :: 0 <= k < |b.when| ==>
               b.when[k] < |r.states| && b.table[k] < |r.states[b.when[k]].cells|
    requires forall k :: 0 <= k < m ==> a.when[k] == b.when[k]
    ensures Gathered(r, a, m) == Gathered(r, b, m)
  {
    if m > 0 {
      GatheredSame(r, a, b, m - 1);
    }
  }

  /** One access of a reader in state s takes it from pc to pc'. */
  ghost predicate ReadsOn(s: State, pc: Pc, pc': Pc)
    reads {}
  {
    match pc
    case ReadBase => pc'.ReadTable? && pc'.sum == s.base
    case ReadTable(sum) =>
      if Current(s) == [] then pc'.Read? && pc'.result == sum else pc'.ReadCheck? && pc'.sum == sum
    case ReadCheck(sum, cur) =>
      || (pc'.ReadTable? && pc'.sum == sum)
      || (pc'.ReadCell? && pc'.sum == sum && pc'.i == 0 && pc'.cur == cur == Current(s))
    case ReadCell(sum, cur, i) =>
      if i == |cur| then pc'.Read? && pc'.result == sum
      else
        && i < |cur| && cur[i] < |s.cells|
        && pc'.ReadCell? && pc'.sum == sum + s.cells[cur[i]] && pc'.cur == cur && pc'.i == i + 1
    case _ => false
  }

  lemma ReadStep(s: State, s': State, t: Tid)
    requires Inv(s) && Next(s, s', t) && t in s'.locals && Reading(s'.locals[t].pc)
    ensures ReadsOn(s, s.locals[t].pc, s'.locals[t].pc)
  {
    TablesOf(s);
    assert s.stripes.Some? ==> Current(s) != [];
    hide Inv, Work, CanWork, PcOk, ReadsOn;
    if !(s.locals[t].pc.Idle? || s.locals[t].pc.Read?) {
      var hash :| s' == Work(s, t, hash);
      if Adding(s.locals[t].pc) {
        AddersAreNotReaders(s, t, hash);
      } else {
        ReadWork(s, t, hash);
      }
    }
  }

  lemma ReadWork(s: State, t: Tid, hash: nat)
    requires CanWork(s, t) && PcOk(s, s.locals[t].pc) && (s.locals[t].pc.ReadBase? || Reading(s.locals[t].pc))
    requires !s.locals[t].pc.Read? && (s.stripes.Some? ==> Current(s) != [])
    ensures ReadsOn(s, s.locals[t].pc, Work(s, t, hash).locals[t].pc)
  {
  }

  /** What a read has added up so far. */
  ghost predicate Accounted(r: Run, n: nat, pc: Pc, t: Tid, a: Account)
    reads {}
  {
    && OneRead(r, t, a.from, n)
    && (pc.ReadTable? || pc.ReadCheck? ==> pc.sum == r.states[a.from].base)
    && (pc.ReadCell? ==>
          && AccountOk(r, t, n, a) && a.table == pc.cur && |a.when| == pc.i
          && pc.sum == r.states[a.from].base + Gathered(r, a, |a.when|))
    && (pc.Read? ==>
          && AccountOk(r, t, n, a) && |a.when| == |a.table|
          && pc.result == r.states[a.from].base + Gathered(r, a, |a.when|))
  }

  /** The thread's own step brings its account up to date. */
  lemma AccountNext(r: Run, n: nat, t: Tid, a: Account) returns (b: Account)
    requires n + 1 < |r.states| && |r.states| == |r.actors| + 1 && r.actors[n] == t
    requires t in r.states[n].locals && t in r.states[n + 1].locals && Reading(r.states[n + 1].locals[t].pc)
    requires ReadsOn(r.states[n], r.states[n].locals[t].pc, r.states[n + 1].locals[t].pc)
    requires Reading(r.states[n].locals[t].pc) ==> Accounted(r, n, r.states[n].locals[t].pc, t, a)
    ensures Accounted(r, n + 1, r.states[n + 1].locals[t].pc, t, b)
  {
    var pc, pc' := r.states[n].locals[t].pc, r.states[n + 1].locals[t].pc;
    assert pc.ReadBase? || Reading(pc);
    hide OneRead, AccountOk, Gathered, Reading;
    OneReadNext(r, t, if pc.ReadBase? then n else a.from, n);
    if pc.ReadBase? {
      b := Account(n, 0, [], []);
    } else if (pc.ReadTable? && pc'.Read?) || (pc.ReadCheck? && pc'.ReadCell?) {
      b := Account(a.from, n, Current(r.states[n]), []);
      AccountBegins(r, t, n, a.from);
    } else if pc.ReadCell? && pc'.ReadCell? {
      b := a.(when := a.when + [n]);
      AccountOneMore(r, t, n, a);
    } else {
      b := a;
      AccountKept(r, t, n, a);
    }
  }

  lemma OneReadNext(r: Run, t: Tid, from: nat, n: nat)
    requires n + 1 < |r.states| && |r.states| == |r.actors| + 1 && t in r.states[n].locals
    requires t in r.states[n + 1].locals && Reading(r.states[n + 1].locals[t].pc)
    requires OneRead(r, t, from, n) || (from == n && r.actors[n] == t && r.states[n].locals[t].pc.ReadBase?)
    ensures OneRead(r, t, from, n + 1)
  {
  }

  lemma AccountBegins(r: Run, t: Tid, n: nat, from: nat)
    requires OneRead(r, t, from, n) && n + 1 < |r.states| && r.actors[n] == t
    ensures var a := Account(from, n, Current(r.states[n]), []); AccountOk(r, t, n + 1, a) && Gathered(r, a, 0) == 0
  {
  }

  lemma AccountKept(r: Run, t: Tid, n: nat, a: Account)
    requires n + 1 < |r.states|
    ensures AccountOk(r, t, n, a) ==> AccountOk(r, t, n + 1, a)
  {
  }

  lemma AccountOneMore(r: Run, t: Tid, n: nat, a: Account)
    requires AccountOk(r, t, n, a) && n + 1 < |r.states| && r.actors[n] == t && |a.when| < |a.table|
    requires a.table[|a.when|] < |r.states[n].cells|
    ensures var b := a.(when := a.when + [n]);
            && AccountOk(r, t, n + 1, b)
            && Gathered(r, b, |b.when|) == Gathered(r, a, |a.when|) + r.states[n].cells[a.table[|a.when|]]
  {
    var b := a.(when := a.when + [n]);
    hide Gathered;
    assert AccountOk(r, t, n + 1, b) by {
      forall k {:trigger b.when[k]} | 0 <= k < |b.when|
        ensures b.at < b.when[k] < n + 1 && r.actors[b.when[k]] == t && b.table[k] < |r.states[b.when[k]].cells|
      {
        assert k < |a.when| ==> b.when[k] == a.when[k];
      }
    }
    GatheredMore(r, a, n);
  }

  lemma GatheredMore(r: Run, a: Account, n: nat)
    requires |a.when| < |a.table| && n < |r.states| && a.table[|a.when|] < |r.states[n].cells|
    requires forall k {:trigger a.when[k]} :: 0 <= k < |a.when| ==>
               a.when[k] < |r.states| && a.table[k] < |r.states[a.when[k]].cells|
    ensures var b := a.(when := a.when + [n]);
            && (forall k {:trigger b.when[k]} :: 0 <= k < |b.when| ==>
                  b.when[k] < |r.states| && b.table[k] < |r.states[b.when[k]].cells|)
            && Gathered(r, b, |b.when|) == Gathered(r, a, |a.when|) + r.states[n].cells[a.table[|a.when|]]
  {
    GatheredSame(r, a, a.(when := a.when + [n]), |a.when|);
  }

  /** Another thread's step leaves it as it is. */
  lemma AccountStays(r: Run, n: nat, t: Tid, a: Account)
    requires n + 1 < |r.states| && t in r.states[n].locals && t in r.states[n + 1].locals
    requires r.states[n + 1].locals[t] == r.states[n].locals[t] && Reading(r.states[n].locals[t].pc)
    requires Accounted(r, n, r.states[n].locals[t].pc, t, a)
    ensures Accounted(r, n + 1, r.states[n + 1].locals[t].pc, t, a)
  {
  }

  lemma {:induction false} AccountOf(r: Run, n: nat, t: Tid) returns (a: Account)
    requires IsRun(r) && n < |r.states| && t in r.states[n].locals && Reading(r.states[n].locals[t].pc)
    ensures Accounted(r, n, r.states[n].locals[t].pc, t, a)
  {
    NotReadingAtFirst(r);
    RunInv(r, n - 1);
    var s, s', u := r.states[n - 1], r.states[n], r.actors[n - 1];
    assert Next(s, r.states[n - 1 + 1], u);
    StepMovesOne(s, s', u);
    hide IsRun, Inv, Next, Accounted, Reading, ReadsOn;
    a := Account(0, 0, [], []);
    if Reading(s.locals[t].pc) {
      a := AccountOf(r, n - 1, t);
    }
    if u == t {
      ReadStep(s, s', t);
      a := AccountNext(r, n - 1, t, a);
    } else {
      AccountStays(r, n - 1, t, a);
    }
  }

  /**
   * What value() returns, whatever adds and growth it overlaps and whatever their amounts: the
   * base as it was at one instant of the call and, for each cell of a table that was the
   * current one at an instant of the call, what that cell held at its own instant of the call.
   */
  lemma ReadAddsUp(r: Run, n: nat, t: Tid) returns (a: Account)
    requires IsRun(r) && n < |r.states| && t in r.states[n].locals && r.states[n].locals[t].pc.Read?
    ensures OneRead(r, t, a.from, n) && AccountOk(r, t, n, a) && |a.when| == |a.table|
    ensures r.states[n].locals[t].pc.result == r.states[a.from].base + Gathered(r, a, |a.table|)
  {
    hide IsRun;
    a := AccountOf(r, n, t);
  }

  /** A step that applies no add leaves the base and every cell. */
  lemma QuietStep(s: State, s': State, t: Tid)
    requires Next(s, s', t)
    ensures s.log <= s'.log && (s'.log == s.log ==> s'.base == s.base && s.cells <= s'.cells)
  {
  }

  lemma {:induction false} QuietStretch(r: Run, i: nat, j: nat)
    requires IsRun(r) && i <= j < |r.states|
    ensures var s, s' := r.states[i], r.states[j];
            s.log <= s'.log && (s'.log == s.log ==> s'.base == s.base && s.cells <= s'.cells)
    decreases j
  {
    if i < j {
      QuietStretch(r, i, j - 1);
      assert Next(r.states[j - 1], r.states[j - 1 + 1], r.actors[j - 1]);
      QuietStep(r.states[j - 1], r.states[j], r.actors[j - 1]);
    }
  }

  lemma {:induction false} GatheredIsSum(r: Run, t: Tid, n: nat, a: Account, m: nat)
    requires IsRun(r) && AccountOk(r, t, n, a) && m <= |a.when| && Within(a.table, |r.states[a.at].cells|)
    requires r.states[a.at].log == r.states[n].log
    ensures Gathered(r, a, m) == Sum(r.states[a.at].cells, a.table[..m])
  {
    if m > 0 {
      hide IsRun;
      GatheredIsSum(r, t, n, a, m - 1);
      QuietStretch(r, a.at, a.when[m - 1]);
      QuietStretch(r, a.when[m - 1], n);
      ReadOneCell(r.states[a.at].cells, a.table, m - 1);
    }
  }

  /** A read that no add interrupts returns the total, whatever the amounts before it. */
  lemma QuietReadIsExact(r: Run, n: nat, t: Tid) returns (from: nat)
    requires IsRun(r) && n < |r.states| && t in r.states[n].locals && r.states[n].locals[t].pc.Read?
    ensures OneRead(r, t, from, n)
    ensures r.states[from].log == r.states[n].log ==> r.states[n].locals[t].pc.result == Total(r.states[n].log)
  {
    var a := ReadAddsUp(r, n, t);
    from := a.from;
    QuietStretch(r, from, a.at);
    QuietStretch(r, a.at, n);
    NoUpdateLost(r, a.at);
    if r.states[from].log == r.states[n].log {
      GatheredIsSum(r, t, n, a, |a.table|);
      assert a.table[..|a.table|] == a.table;
    }
  }

  // ---------------------------------------------------------------- value() beside adds that only add

  lemma RisesOn(a: State, b: State, c: State)
    requires Rises(a, b) && Rises(b, c)
    ensures Rises(a, c)
  {
  }

  lemma InitNonNegative(s: State)
    requires Init(s)
    ensures NonNegative(s) && Rises(s, s)
  {
  }

  lemma {:induction false} RisesOver(r: Run, i: nat, j: nat)
    requires IsRun(r) && forall m {:trigger r.states[m]} :: 0 <= m < |r.states| ==> ArgsNonNegative(r.states[m])
    requires i <= j < |r.states|
    ensures Inv(r.states[j]) && NonNegative(r.states[j]) && Rises(r.states[i], r.states[j])
    decreases j
  {
    hide Inv, Next, NonNegative, Rises, Init, ArgsNonNegative;
    if j == 0 {
      InitInv(r.states[0]);
      InitNonNegative(r.states[0]);
    } else {
      RisesOver(r, if i < j then i else j - 1, j - 1);
      assert Next(r.states[j - 1], r.states[j - 1 + 1], r.actors[j - 1]);
      NextRises(r.states[j - 1], r.states[j], r.actors[j - 1]);
      if i < j {
        RisesOn(r.states[i], r.states[j - 1], r.states[j]);
      } else {
        RisesItself(r.states[j]);
      }
    }
  }

  lemma RisesItself(s: State)
    requires NonNegative(s)
    ensures Rises(s, s)
  {
  }

  lemma {:induction false} GatheredBetween(r: Run, t: Tid, n: nat, a: Account, m: nat)
    requires IsRun(r) && forall i {:trigger r.states[i]} :: 0 <= i < |r.states| ==> ArgsNonNegative(r.states[i])
    requires AccountOk(r, t, n, a) && m <= |a.when|
    requires Within(a.table, |r.states[a.at].cells|) && Within(a.table, |r.states[n].cells|)
    ensures Sum(r.states[a.at].cells, a.table[..m]) <= Gathered(r, a, m) <= Sum(r.states[n].cells, a.table[..m])
  {
    hide Inv, IsRun, NonNegative, ArgsNonNegative;
    if m > 0 {
      GatheredBetween(r, t, n, a, m - 1);
      RisesOver(r, a.at, a.when[m - 1]);
      RisesOver(r, a.when[m - 1], n);
      ReadOneCell(r.states[a.at].cells, a.table, m - 1);
      ReadOneCell(r.states[n].cells, a.table, m - 1);
    }
  }

  /**
   * If no add is of a negative amount, a value() that overlaps adds and table growth returns a
   * number between the true total when the read began, at step `from`, and when it ended.
   */
  lemma ReadBetweenTotals(r: Run, n: nat, t: Tid) returns (from: nat)
    requires IsRun(r) && n < |r.states| && forall i {:trigger r.states[i]} :: 0 <= i < |r.states| ==>
               ArgsNonNegative(r.states[i])
    requires t in r.states[n].locals && r.states[n].locals[t].pc.Read?
    ensures OneRead(r, t, from, n)
    ensures Total(r.states[from].log) <= r.states[n].locals[t].pc.result <= Total(r.states[n].log)
  {
    var a := ReadAddsUp(r, n, t);
    from := a.from;
    NoUpdateLost(r, from);
    NoUpdateLost(r, a.at);
    NoUpdateLost(r, n);
    RisesOver(r, from, a.at);
    RisesOver(r, a.at, n);
    hide IsRun, Inv, NonNegative, ArgsNonNegative, Reading;
    PrefixSum(r.states[from], r.states[a.at], Current(r.states[from]), a.table);
    RisesItself(r.states[n]);
    PrefixSum(r.states[n], r.states[n], a.table, Current(r.states[n]));
    GatheredBetween(r, t, n, a, |a.table|);
    assert a.table[..|a.table|] == a.table;
  }

  // ---------------------------------------------------------------- the masked index

  lemma AndBelow(x: bv64, y: bv64)
    ensures x & y <= y
  {
  }

  lemma AndSplits(x: bv64, y: bv64)
    ensures x == (x & !y) + (x & y) && (x & !y) & y == 0
  {
  }

  /**
   * hash & (size - 1) is a position in the table, whatever its size, and takes from the
   * hash all the bits below the size.
   */
  lemma MaskIsIndex(hash: bv64, size: bv64)
    requires size != 0
    ensures hash & (size - 1) < size
    ensures var rest := hash & !(size - 1); hash == rest + (hash & (size - 1)) && rest & (size - 1) == 0
  {
    AndBelow(hash, size - 1);
    AndSplits(hash, size - 1);
  }

  /** ... the remainder, for the sizes a table passes through as it grows from nothing. */
  lemma MaskIsRemainder(hash: bv64)
    ensures hash & 1 == hash % 2 && hash & 3 == hash % 4 && hash & 7 == hash % 8
  {
  }
}
