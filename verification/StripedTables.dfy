/**
 * All tables of one striped counter together, as they are created, win or lose the
 * race to be installed, are disavowed and deleted: every slab is deleted exactly once,
 * and none while a cell in it can still be reached from the installed table.
 */
module StripedTables {
  import opened Words

  /** Made: private to its creator. Old: replaced, not yet disavowed. */
  datatype Role = Made | Installed | Old | Lost | Retired

  /** `base` is the table it was expanded from; `owner` and `clean` are its two flags. */
  datatype Tab = Tab(ids: seq<nat>, base: Option<nat>, owner: bool, clean: bool, role: Role)

  /**
   * Tables and slabs are named by number, never reused; `dead` once ~Striped64 has run; `freed` counts deletions
   * (history).
   */
  datatype State = State(stripes: Option<nat>, dead: bool, tabs: map<nat, Tab>, named: nat, live: set<nat>,
      slabs: nat, freed: multiset<nat>)

  function Ids(ids: seq<nat>): set<nat>
    reads {}
  {
    set x | x in ids
  }

  /** What the destructor of a table deletes, by its flags. */
  function Owes(b: Tab): set<nat>
    reads {}
  {
    if b.owner then Ids(b.ids) else if b.clean && |b.ids| > 0 then {b.ids[|b.ids| - 1]} else {}
  }

  /** What the table is in the end responsible for, by its role. */
  function Due(b: Tab): set<nat>
    reads {}
  {
    match b.role
    case Installed => Ids(b.ids)
    case Made => if |b.ids| > 0 then {b.ids[|b.ids| - 1]} else {}
    case Lost => if |b.ids| > 0 then {b.ids[|b.ids| - 1]} else {}
    case Old => {}
    case Retired => {}
  }

  // ---------------------------------------------------------------- events

  function Create(s: State): State
    reads {}
  {
    s.(tabs := s.tabs[s.named := Tab([s.slabs], None, true, true, Made)], named := s.named + 1,
       live := s.live + {s.slabs}, slabs := s.slabs + 1)
  }

  function Expand(s: State, e: nat): State
    requires e in s.tabs
    reads {}
  {
    s.(tabs := s.tabs[s.named := Tab(s.tabs[e].ids + [s.slabs], Some(e), true, true, Made)], named := s.named + 1,
       live := s.live + {s.slabs}, slabs := s.slabs + 1)
  }

  function SetRole(s: State, n: nat, role: Role): State
    requires n in s.tabs
    reads {}
  {
    s.(tabs := s.tabs[n := s.tabs[n].(role := role)])
  }

  /** The compare-exchange from null to n succeeds. */
  function Install(s: State, n: nat): State
    requires n in s.tabs
    reads {}
  {
    SetRole(s, n, Installed).(stripes := Some(n))
  }

  /** The compare-exchange from e to n succeeds. */
  function Win(s: State, e: nat, n: nat): State
    requires e in s.tabs && n in s.tabs
    reads {}
  {
    SetRole(SetRole(s, e, Old), n, Installed).(stripes := Some(n))
  }

  /** disavow, by the loser of the race. */
  function Disavow(s: State, n: nat): State
    requires n in s.tabs
    reads {}
  {
    s.(tabs := s.tabs[n := s.tabs[n].(role := Lost, owner := false)])
  }

  /** disavow_all, by the winner, of the table it replaced. */
  function DisavowAll(s: State, e: nat): State
    requires e in s.tabs
    reads {}
  {
    s.(tabs := s.tabs[e := s.tabs[e].(role := Retired, owner := false, clean := false)])
  }

  function Delete(s: State, n: nat): State
    requires n in s.tabs
    reads {}
  {
    var gone := Owes(s.tabs[n]);
    s.(tabs := s.tabs - {n}, live := s.live - gone, freed := s.freed + multiset(gone))
  }

  /** ~Striped64. */
  function Destroy(s: State, n: nat): State
    requires n in s.tabs
    reads {}
  {
    Delete(s, n).(stripes := None, dead := true)
  }

  predicate WasInstalled(b: Tab)
    reads {}
  {
    b.role.Installed? || b.role.Old? || b.role.Retired?
  }

  /** A table may be deleted once it is disavowed, or if it lost the race from null. */
  predicate MayDelete(s: State, n: nat)
    requires n in s.tabs
    reads {}
  {
    var b := s.tabs[n];
    b.role.Lost? || b.role.Retired? || (b.role.Made? && b.base.None?)
  }

  datatype Event = Creates | Expands(e: nat) | Installs(n: nat) | Wins(e: nat, n: nat) | Loses(n: nat)
      | Retires(e: nat) | Deletes(n: nat) | Destroys(n: nat)

  ghost predicate Enabled(s: State, ev: Event)
    reads {}
  {
    match ev
    case Creates => !s.dead
    case Expands(e) => !s.dead && e in s.tabs && WasInstalled(s.tabs[e])
    case Installs(n) => !s.dead && s.stripes.None? && n in s.tabs && s.tabs[n].role.Made? && s.tabs[n].base.None?
    case Wins(e, n) =>
      s.stripes == Some(e) && e in s.tabs && n in s.tabs && s.tabs[n].role.Made? && s.tabs[n].base == Some(e)
    case Loses(n) => n in s.tabs && s.tabs[n].role.Made? && s.tabs[n].base.Some?
    case Retires(e) => e in s.tabs && s.tabs[e].role.Old?
    case Deletes(n) => n in s.tabs && MayDelete(s, n)
    case Destroys(n) =>
      s.stripes == Some(n) && n in s.tabs && forall m :: m in s.tabs ==> m == n || s.tabs[m].role.Retired?
  }

  function Step(s: State, ev: Event): State
    requires Enabled(s, ev)
    reads {}
  {
    match ev
    case Creates => Create(s)
    case Expands(e) => Expand(s, e)
    case Installs(n) => Install(s, n)
    case Wins(e, n) => Win(s, e, n)
    case Loses(n) => Disavow(s, n)
    case Retires(e) => DisavowAll(s, e)
    case Deletes(n) => Delete(s, n)
    case Destroys(n) => Destroy(s, n)
  }

  // ---------------------------------------------------------------- invariant

  ghost predicate TabOk(b: Tab, slabs: nat)
    reads {}
  {
    && |b.ids| > 0
    && (forall i, j :: 0 <= i < j < |b.ids| ==> b.ids[i] != b.ids[j])
    && (forall i :: 0 <= i < |b.ids| ==> b.ids[i] < slabs)
    && (b.role.Lost? ==> !b.owner && b.clean)
    && (b.role.Retired? ==> !b.owner && !b.clean)
    && (b.role.Made? || b.role.Installed? || b.role.Old? ==> b.owner && b.clean)
    && (b.role.Made? && b.base.None? ==> |b.ids| == 1)
  }

  /** The part of a table's slabs that it has from the table it was expanded from. */
  function Shared(b: Tab): seq<nat>
    reads {}
  {
    if |b.ids| > 0 then b.ids[..|b.ids| - 1] else []
  }

  ghost predicate BasesOk(s: State)
    reads {}
  {
    forall n {:trigger s.tabs[n].base} :: n in s.tabs && s.tabs[n].base.Some? ==>
      var e := s.tabs[n].base.value; e < s.named && (e in s.tabs ==> Shared(s.tabs[n]) == s.tabs[e].ids)
  }

  ghost predicate TabsOk(s: State)
    reads {}
  {
    forall n {:trigger s.tabs[n]} :: n in s.tabs ==> n < s.named && TabOk(s.tabs[n], s.slabs)
  }

  /** stripes_ names the installed table. */
  ghost predicate Pointed(s: State)
    reads {}
  {
    && (forall n {:trigger s.tabs[n].role} :: n in s.tabs ==> (s.tabs[n].role.Installed? <==> s.stripes == Some(n)))
    && (s.stripes.Some? ==> s.stripes.value in s.tabs && !s.dead)
    && (s.stripes.None? && !s.dead ==> forall n {:trigger s.tabs[n]} :: n in s.tabs ==>
         !WasInstalled(s.tabs[n]) && s.tabs[n].base.None?)
    && (s.dead ==> forall n {:trigger s.tabs[n].role} :: n in s.tabs ==> s.tabs[n].role.Retired?)
  }

  /**
   * Every table that was ever installed is a prefix of the one installed now, and so is what a private table
   * shares.
   */
  ghost predicate Nested(s: State)
    reads {}
  {
    s.stripes.Some? && s.stripes.value in s.tabs ==>
      forall m {:trigger s.tabs[m]} :: m in s.tabs ==>
        if WasInstalled(s.tabs[m]) then s.tabs[m].ids <= s.tabs[s.stripes.value].ids
        else s.tabs[m].base.Some? ==> Shared(s.tabs[m]) <= s.tabs[s.stripes.value].ids
  }

  /** Each live slab is the responsibility of exactly one table. */
  ghost predicate Divided(s: State)
    reads {}
  {
    && (forall n, x :: n in s.tabs && x in Due(s.tabs[n]) ==> x in s.live)
    && (forall x :: x in s.live ==> exists n :: n in s.tabs && x in Due(s.tabs[n]))
    && (forall m, n :: m in s.tabs && n in s.tabs && m != n ==> Due(s.tabs[m]) !! Due(s.tabs[n]))
  }

  ghost predicate FreedOnce(s: State)
    reads {}
  {
    && (forall x :: s.freed[x] <= 1)
    && (forall x :: x in s.freed ==> x < s.slabs && x !in s.live)
    && (forall x :: x in s.live ==> x < s.slabs)
    && (forall x :: 0 <= x < s.slabs && x !in s.live ==> x in s.freed)
  }

  ghost predicate Inv(s: State)
    reads {}
  {
    && TabsOk(s) && BasesOk(s) && Nested(s) && Pointed(s) && Divided(s) && FreedOnce(s)
  }

  ghost predicate Init(s: State)
    reads {}
  {
    s.stripes.None? && !s.dead && s.tabs == map[] && s.live == {} && s.slabs == 0 && s.freed == multiset{}
  }

  // ---------------------------------------------------------------- events keep it

  lemma SameDue(s: State, s': State)
    requires Divided(s) && s'.live == s.live && s'.tabs.Keys == s.tabs.Keys
    requires forall n :: n in s.tabs ==> Due(s'.tabs[n]) == Due(s.tabs[n])
    ensures Divided(s')
  {
    hide Due;
    forall x | x in s'.live ensures exists n :: n in s'.tabs && x in Due(s'.tabs[n]) {
      var n :| n in s.tabs && x in Due(s.tabs[n]);
      assert n in s'.tabs && x in Due(s'.tabs[n]);
    }
  }

  /** A new private table answers for the one slab allocated with it. */
  lemma MadeDivided(s: State, s': State, b: Tab)
    requires Divided(s) && FreedOnce(s) && s.named !in s.tabs
    requires s'.tabs == s.tabs[s.named := b] && s'.live == s.live + {s.slabs} && Due(b) == {s.slabs}
    ensures Divided(s')
  {
    hide Due;
    forall x | x in s'.live ensures exists n :: n in s'.tabs && x in Due(s'.tabs[n]) {
      if x == s.slabs {
        assert s.named in s'.tabs && x in Due(s'.tabs[s.named]);
      } else {
        var n :| n in s.tabs && x in Due(s.tabs[n]);
        assert n in s'.tabs && x in Due(s'.tabs[n]);
      }
    }
  }

  lemma MadeFreed(s: State, s': State)
    requires FreedOnce(s) && s'.live == s.live + {s.slabs} && s'.slabs == s.slabs + 1 && s'.freed == s.freed
    ensures FreedOnce(s')
  {
  }

  /** A new private table, whose own slab is the newest. */
  lemma MadeShape(s: State, s': State, b: Tab)
    requires TabsOk(s) && BasesOk(s) && Nested(s) && Pointed(s)
    requires s' == s.(tabs := s.tabs[s.named := b], named := s.named + 1, live := s'.live, slabs := s.slabs + 1)
    requires !s.dead
    requires TabOk(b, s'.slabs) && b.role.Made?
    requires b.base.Some? ==>
               b.base.value in s.tabs && WasInstalled(s.tabs[b.base.value]) && Shared(b) == s.tabs[b.base.value].ids
    ensures TabsOk(s') && BasesOk(s') && Nested(s') && Pointed(s')
  {
    NewName(s);
    assert TabsOk(s') by {
      forall n | n in s'.tabs ensures n < s'.named && TabOk(s'.tabs[n], s'.slabs) {
        if n != s.named { assert TabOk(s.tabs[n], s.slabs); }
      }
    }
    hide TabOk, Shared;
  }

  lemma CreateKeepsInv(s: State)
    requires Inv(s) && !s.dead
    ensures Inv(Create(s))
  {
    hide TabsOk, BasesOk, Nested, Pointed;
    var s' := Create(s);
    assert s.named !in s.tabs by { NewName(s); }
    MadeDivided(s, s', s'.tabs[s.named]);
    MadeFreed(s, s');
    hide Divided, FreedOnce;
    MadeShape(s, s', s'.tabs[s.named]);
  }

  lemma NewName(s: State)
    requires TabsOk(s)
    ensures s.named !in s.tabs
  {
  }

  lemma ExpandedOk(s: State, e: nat)
    requires TabsOk(s) && e in s.tabs
    ensures var b := Expand(s, e).tabs[s.named]; TabOk(b, s.slabs + 1) && Shared(b) == s.tabs[e].ids
  {
    assert TabOk(s.tabs[e], s.slabs);
  }

  lemma ExpandKeepsInv(s: State, e: nat)
    requires Inv(s) && Enabled(s, Expands(e))
    ensures Inv(Expand(s, e))
  {
    hide TabsOk, BasesOk, Nested, Pointed, Divided, FreedOnce, TabOk, Due;
    var s' := Expand(s, e);
    assert !s.dead && e in s.tabs && WasInstalled(s.tabs[e]);
    hide Enabled, WasInstalled;
    ExpandedOk(s, e);
    NewName(s);
    DueOfExpanded(s, e);
    MadeDivided(s, s', s'.tabs[s.named]);
    MadeFreed(s, s');
    MadeShape(s, s', s'.tabs[s.named]);
  }

  lemma DueOfExpanded(s: State, e: nat)
    requires e in s.tabs
    ensures Due(Expand(s, e).tabs[s.named]) == {s.slabs}
  {
  }

  lemma InstallShape(s: State, n: nat)
    requires TabsOk(s) && BasesOk(s) && Nested(s) && Pointed(s) && Enabled(s, Installs(n))
    ensures TabsOk(Install(s, n)) && BasesOk(Install(s, n)) && Nested(Install(s, n)) && Pointed(Install(s, n))
  {
  }

  lemma InstallKeepsInv(s: State, n: nat)
    requires Inv(s) && Enabled(s, Installs(n))
    ensures Inv(Install(s, n))
  {
    InstallShape(s, n);
    assert TabOk(s.tabs[n], s.slabs);
    hide TabsOk, BasesOk, Nested, Pointed, Divided, TabOk, FreedOnce;
    InstallDue(s, n);
    hide Due;
    SameDue(s, Install(s, n));
  }

  lemma InstallDue(s: State, n: nat)
    requires Enabled(s, Installs(n)) && TabOk(s.tabs[n], s.slabs)
    ensures forall m :: m in s.tabs ==> Due(Install(s, n).tabs[m]) == Due(s.tabs[m])
  {
    OneId(s.tabs[n].ids);
  }

  lemma OneId(ids: seq<nat>)
    requires |ids| == 1
    ensures Ids(ids) == {ids[0]}
  {
  }

  lemma WinShape(s: State, e: nat, n: nat)
    requires TabsOk(s) && BasesOk(s) && Nested(s) && Pointed(s) && Enabled(s, Wins(e, n))
    ensures TabsOk(Win(s, e, n)) && BasesOk(Win(s, e, n)) && Nested(Win(s, e, n)) && Pointed(Win(s, e, n))
  {
    assert TabOk(s.tabs[n], s.slabs) && Shared(s.tabs[n]) == s.tabs[e].ids;
    assert s.tabs[e].ids <= s.tabs[n].ids;
    WinNested(s, e, n);
    hide Nested;
    WinTabs(s, e, n);
    hide TabsOk, BasesOk;
  }

  lemma RoleOnly(b: Tab, role: Role, slabs: nat)
    requires TabOk(b, slabs) && (b.role.Made? || b.role.Installed?) && (role.Installed? || role.Old?)
    ensures TabOk(b.(role := role), slabs) && Shared(b.(role := role)) == Shared(b)
  {
  }

  lemma WinTabs(s: State, e: nat, n: nat)
    requires TabsOk(s) && BasesOk(s) && Pointed(s) && Enabled(s, Wins(e, n))
    ensures TabsOk(Win(s, e, n)) && BasesOk(Win(s, e, n))
  {
    hide TabOk, Shared;
    RoleOnly(s.tabs[e], Old, s.slabs);
    RoleOnly(s.tabs[n], Installed, s.slabs);
    hide Pointed;
  }

  lemma WinNested(s: State, e: nat, n: nat)
    requires Nested(s) && Pointed(s) && Enabled(s, Wins(e, n)) && s.tabs[e].ids <= s.tabs[n].ids
    ensures Nested(Win(s, e, n))
  {
    var s' := Win(s, e, n);
    hide Shared;
    forall m | m in s'.tabs
      ensures if WasInstalled(s'.tabs[m]) then s'.tabs[m].ids <= s'.tabs[n].ids
              else s'.tabs[m].base.Some? ==> Shared(s'.tabs[m]) <= s'.tabs[n].ids
    {
      assert m in s.tabs;
      SharedById(s'.tabs[m], s.tabs[m]);
    }
  }

  lemma SharedById(b: Tab, c: Tab)
    ensures b.ids == c.ids ==> Shared(b) == Shared(c)
  {
  }

  /** The new table takes over every slab of the old one. */
  lemma WinDivided(s: State, e: nat, n: nat)
    requires TabsOk(s) && BasesOk(s) && Pointed(s) && Divided(s) && Enabled(s, Wins(e, n))
    ensures Divided(Win(s, e, n))
  {
    hide Due, TabsOk, BasesOk, Pointed, Shared;
    var s' := Win(s, e, n);
    WinDue(s, e, n);
    forall x | x in s'.live ensures exists m :: m in s'.tabs && x in Due(s'.tabs[m]) {
      var m :| m in s.tabs && x in Due(s.tabs[m]);
      if m == e {
        assert n in s'.tabs && x in Due(s'.tabs[n]);
      } else {
        assert m in s'.tabs && x in Due(s'.tabs[m]);
      }
    }
  }

  lemma WinDue(s: State, e: nat, n: nat)
    requires TabsOk(s) && BasesOk(s) && Pointed(s) && Enabled(s, Wins(e, n))
    ensures var s' := Win(s, e, n);
            && Due(s'.tabs[n]) == Due(s.tabs[n]) + Due(s.tabs[e]) && Due(s'.tabs[e]) == {} && e != n
            && forall m :: m in s.tabs && m != e && m != n ==> s'.tabs[m] == s.tabs[m]
  {
    var s' := Win(s, e, n);
    assert TabOk(s.tabs[n], s.slabs);
    LastAndRest(s.tabs[n].ids);
    assert Due(s'.tabs[n]) == Due(s.tabs[n]) + Due(s.tabs[e]) && Due(s'.tabs[e]) == {};
  }

  lemma LastAndRest(ids: seq<nat>)
    requires |ids| > 0
    ensures Ids(ids) == Ids(ids[..|ids| - 1]) + {ids[|ids| - 1]}
  {
    assert ids == ids[..|ids| - 1] + [ids[|ids| - 1]];
  }

  lemma WinKeepsInv(s: State, e: nat, n: nat)
    requires Inv(s) && Enabled(s, Wins(e, n))
    ensures Inv(Win(s, e, n))
  {
    hide TabsOk, BasesOk, Nested, Pointed, Divided;
    WinShape(s, e, n);
    WinDivided(s, e, n);
  }

  /** A change of flags and role that leaves the table outside, or inside, the nest it was in. */
  lemma FlagsShape(s: State, s': State, n: nat, b: Tab)
    requires TabsOk(s) && BasesOk(s) && Nested(s) && Pointed(s) && n in s.tabs && TabOk(b, s.slabs) && !s.dead
    requires s' == s.(tabs := s.tabs[n := b])
    requires b.ids == s.tabs[n].ids && b.base == s.tabs[n].base && WasInstalled(b) == WasInstalled(s.tabs[n])
    requires !b.role.Installed? && !s.tabs[n].role.Installed?
    ensures TabsOk(s') && BasesOk(s') && Nested(s') && Pointed(s')
  {
    SharedById(b, s.tabs[n]);
    hide TabOk, Shared;
  }

  /** No private or undisavowed table is left when the counter is destroyed. */
  lemma NotDead(s: State, n: nat)
    requires Pointed(s) && n in s.tabs && !s.tabs[n].role.Retired?
    ensures !s.dead
  {
  }

  lemma FlagsKeepInv(s: State, s': State, n: nat, b: Tab)
    requires Inv(s) && n in s.tabs && TabOk(b, s.slabs) && !s.tabs[n].role.Retired?
    requires s' == s.(tabs := s.tabs[n := b])
    requires b.ids == s.tabs[n].ids && b.base == s.tabs[n].base && WasInstalled(b) == WasInstalled(s.tabs[n])
    requires !b.role.Installed? && !s.tabs[n].role.Installed? && Due(b) == Due(s.tabs[n])
    ensures Inv(s')
  {
    hide TabsOk, BasesOk, Nested, Pointed, Divided, FreedOnce, Due, TabOk;
    NotDead(s, n);
    FlagsShape(s, s', n, b);
    SameDue(s, s');
    FreedAlone(s, s');
  }

  lemma FreedAlone(s: State, s': State)
    requires FreedOnce(s) && s'.live == s.live && s'.slabs == s.slabs && s'.freed == s.freed
    ensures FreedOnce(s')
  {
  }

  lemma LostOk(b: Tab, slabs: nat)
    requires TabOk(b, slabs) && b.role.Made? && b.base.Some?
    ensures var c := b.(role := Lost, owner := false); TabOk(c, slabs) && Due(c) == Due(b) == Owes(c)
  {
  }

  lemma RetiredOk(b: Tab, slabs: nat)
    requires TabOk(b, slabs) && b.role.Old?
    ensures var c := b.(role := Retired, owner := false, clean := false); TabOk(c, slabs) && Due(c) == Due(b) == Owes(c)
  {
  }

  lemma TabOkOf(s: State, n: nat)
    requires Inv(s) && n in s.tabs
    ensures TabOk(s.tabs[n], s.slabs)
  {
  }

  lemma DisavowKeepsInv(s: State, n: nat)
    requires Inv(s) && Enabled(s, Loses(n))
    ensures Inv(Disavow(s, n))
  {
    hide Inv, TabOk, Due, Owes;
    TabOkOf(s, n);
    LostOk(s.tabs[n], s.slabs);
    FlagsKeepInv(s, Disavow(s, n), n, Disavow(s, n).tabs[n]);
  }

  lemma DisavowAllKeepsInv(s: State, e: nat)
    requires Inv(s) && Enabled(s, Retires(e))
    ensures Inv(DisavowAll(s, e))
  {
    hide Inv, TabOk, Due, Owes;
    TabOkOf(s, e);
    RetiredOk(s.tabs[e], s.slabs);
    FlagsKeepInv(s, DisavowAll(s, e), e, DisavowAll(s, e).tabs[e]);
  }

  // ---------------------------------------------------------------- deletion

  /** A table that may be deleted deletes exactly what it is responsible for. */
  lemma OwesWhatIsDue(s: State, n: nat)
    requires TabsOk(s) && n in s.tabs && (MayDelete(s, n) || s.tabs[n].role.Installed?)
    ensures Owes(s.tabs[n]) == Due(s.tabs[n])
  {
    assert TabOk(s.tabs[n], s.slabs);
    if s.tabs[n].role.Made? {
      OneId(s.tabs[n].ids);
    }
  }

  lemma DeleteDivided(s: State, s': State, n: nat)
    requires Divided(s) && n in s.tabs && s'.tabs == s.tabs - {n} && s'.live == s.live - Due(s.tabs[n])
    ensures Divided(s')
  {
    hide Due;
    forall x | x in s'.live ensures exists m :: m in s'.tabs && x in Due(s'.tabs[m]) {
      var m :| m in s.tabs && x in Due(s.tabs[m]);
      assert m in s'.tabs && x in Due(s'.tabs[m]);
    }
  }

  lemma DeleteFreed(s: State, s': State, gone: set<nat>)
    requires FreedOnce(s) && gone <= s.live && s'.live == s.live - gone && s'.slabs == s.slabs
    requires s'.freed == s.freed + multiset(gone)
    ensures FreedOnce(s')
  {
  }

  lemma DeleteShape(s: State, s': State, n: nat)
    requires TabsOk(s) && BasesOk(s) && Nested(s) && Pointed(s) && n in s.tabs && !s.tabs[n].role.Installed?
    requires s'.tabs == s.tabs - {n} && s'.named == s.named && s'.slabs == s.slabs && s'.stripes == s.stripes
    requires s'.dead == s.dead
    ensures TabsOk(s') && BasesOk(s') && Nested(s') && Pointed(s')
  {
    hide TabOk, Shared;
  }

  lemma DeleteKeepsInv(s: State, n: nat)
    requires Inv(s) && Enabled(s, Deletes(n))
    ensures Inv(Delete(s, n))
  {
    hide TabsOk, BasesOk, Nested, Pointed, Divided, FreedOnce, Due, Owes;
    DeleteLeaves(s, n);
    DeleteShape(s, Delete(s, n), n);
  }

  lemma DeleteLeaves(s: State, n: nat)
    requires TabsOk(s) && Divided(s) && FreedOnce(s) && n in s.tabs && (MayDelete(s, n) || s.tabs[n].role.Installed?)
    ensures Divided(Delete(s, n)) && FreedOnce(Delete(s, n))
  {
    OwesWhatIsDue(s, n);
    hide TabsOk, Due, Owes;
    DeleteDivided(s, Delete(s, n), n);
    DeleteFreed(s, Delete(s, n), Owes(s.tabs[n]));
  }

  lemma DestroyShape(s: State, s': State, n: nat)
    requires TabsOk(s) && BasesOk(s) && n in s.tabs && (forall m :: m in s.tabs ==> m == n || s.tabs[m].role.Retired?)
    requires s'.tabs == s.tabs - {n} && s'.named == s.named && s'.slabs == s.slabs && s'.dead && s'.stripes.None?
    ensures TabsOk(s') && BasesOk(s') && Nested(s') && Pointed(s')
  {
    hide TabOk, Shared;
  }

  lemma DestroyKeepsInv(s: State, n: nat)
    requires Inv(s) && Enabled(s, Destroys(n))
    ensures Inv(Destroy(s, n))
  {
    assert s.tabs[n].role.Installed?;
    hide TabsOk, BasesOk, Nested, Pointed, Divided, FreedOnce, Due, Owes;
    DeleteLeaves(s, n);
    DestroyShape(s, Destroy(s, n), n);
    DividedAlone(Delete(s, n), Destroy(s, n));
  }

  lemma DividedAlone(s: State, s': State)
    requires Divided(s) && FreedOnce(s) && s' == s.(stripes := None, dead := true)
    ensures Divided(s') && FreedOnce(s')
  {
    hide Due;
    forall x | x in s'.live ensures exists n :: n in s'.tabs && x in Due(s'.tabs[n]) {
      var n :| n in s.tabs && x in Due(s.tabs[n]);
      assert n in s'.tabs && x in Due(s'.tabs[n]);
    }
  }

  lemma StepKeepsInv(s: State, ev: Event)
    requires Inv(s) && Enabled(s, ev)
    ensures Inv(Step(s, ev))
  {
    hide Inv;
    match ev
    case Creates => CreateKeepsInv(s);
    case Expands(e) => ExpandKeepsInv(s, e);
    case Installs(n) => InstallKeepsInv(s, n);
    case Wins(e, n) => WinKeepsInv(s, e, n);
    case Loses(n) => DisavowKeepsInv(s, n);
    case Retires(e) => DisavowAllKeepsInv(s, e);
    case Deletes(n) => DeleteKeepsInv(s, n);
    case Destroys(n) => DestroyKeepsInv(s, n);
  }

  // ---------------------------------------------------------------- whole histories

  ghost predicate Happens(s: State, evs: seq<Event>, s': State)
    reads {}
    decreases |evs|
  {
    if evs == [] then s' == s
    else Enabled(s, evs[0]) && Happens(Step(s, evs[0]), evs[1..], s')
  }

  lemma {:induction false} HappensKeepsInv(s: State, evs: seq<Event>, s': State)
    requires Inv(s) && Happens(s, evs, s')
    ensures Inv(s')
    decreases |evs|
  {
    hide Inv, Step;
    if evs != [] {
      StepKeepsInv(s, evs[0]);
      HappensKeepsInv(Step(s, evs[0]), evs[1..], s');
    }
  }

  /**
   * No deletion ever takes a slab of the installed table, nor one that any earlier,
   * replaced table shares with it: a stale pointer to a replaced table still leads to
   * live cells.
   */
  lemma ReachableSlabsLive(s0: State, evs: seq<Event>, s: State, n: nat, m: nat)
    requires Init(s0) && Happens(s0, evs, s) && s.stripes == Some(n) && n in s.tabs && m in s.tabs
    ensures Ids(s.tabs[n].ids) <= s.live
    ensures WasInstalled(s.tabs[m]) ==> Ids(s.tabs[m].ids) <= s.live
    ensures MayDelete(s, m) ==> Owes(s.tabs[m]) !! Ids(s.tabs[n].ids) && Owes(s.tabs[m]) <= s.live
  {
    HappensKeepsInv(s0, evs, s);
    assert Due(s.tabs[n]) == Ids(s.tabs[n].ids);
    if MayDelete(s, m) {
      OwesWhatIsDue(s, m);
    }
    if WasInstalled(s.tabs[m]) {
      assert s.tabs[m].ids <= s.tabs[n].ids;
    }
  }

  /**
   * Each slab ever allocated is deleted at most once, and exactly once when the counter and all its tables are
   * gone.
   */
  lemma EachSlabFreedOnce(s0: State, evs: seq<Event>, s: State, x: nat)
    requires Init(s0) && Happens(s0, evs, s)
    ensures s.freed[x] <= 1 && (x in s.live ==> s.freed[x] == 0)
    ensures s.dead && x < s.slabs ==> s.freed[x] == 1
  {
    HappensKeepsInv(s0, evs, s);
    assert s.dead ==> x !in s.live;
  }
}
