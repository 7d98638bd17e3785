/**
 * The skip list used by one thread at a time: linked levels of nodes, level 0 holding
 * the map and the levels above it an accelerator that find tolerates and tidies.
 */
module SkipList {
  import opened Words
  import opened SkipListSpec

  /** `next[i]` is the link at level i; a marked next[0] makes the node dead. `refs` is link_count. */
  datatype Node = Node(key: int, value: int, refs: int, next: seq<Word>)

  type Heap = map<Addr, Node>

  const MAX_HEIGHT := 12

  predicate Has(h: Heap, a: Addr, i: nat) {
    a in h && i < |h[a].next|
  }

  function LinkAt(h: Heap, a: Addr, i: nat): Word {
    if Has(h, a, i) then h[a].next[i] else NULL
  }

  function EntryAt(h: Heap, a: Addr): Entry {
    if Has(h, a, 0) then Entry(h[a].key, h[a].value, h[a].next[0].tag) else Entry(0, 0, false)
  }

  // ---------------------------------------------------------------- levels

  /** The j-th node of a level, the head being the 0th. */
  function Nth(head: Addr, chain: seq<Addr>, j: nat): Addr {
    if 1 <= j <= |chain| then chain[j - 1] else head
  }

  /** The address after the j-th node: null at the end. */
  function After(chain: seq<Addr>, j: nat): Addr {
    if j < |chain| then chain[j] else 0
  }

  /** Which node of a level a is; 0 for the head. */
  function Place(chain: seq<Addr>, a: Addr): (j: nat)
    ensures j <= |chain| && (a in chain ==> j > 0 && chain[j - 1] == a) && (a !in chain ==> j == 0)
  {
    if chain == [] then 0
    else if chain[|chain| - 1] == a then |chain|
    else Place(chain[..|chain| - 1], a)
  }

  predicate Distinct(chain: seq<Addr>) {
    forall x, y :: 0 <= x < y < |chain| ==> chain[x] != chain[y]
  }

  /** Level i is the null-terminated list of `chain`. */
  ghost predicate Level(h: Heap, head: Addr, i: nat, chain: seq<Addr>) {
    && head != 0 && head !in chain && 0 !in chain
    && Distinct(chain)
    && (forall j {:trigger Nth(head, chain, j)} :: 0 <= j <= |chain| ==>
          && Has(h, Nth(head, chain, j), i) && Has(h, Nth(head, chain, j), 0)
          && LinkAt(h, Nth(head, chain, j), i).ptr == After(chain, j))
  }

  /** The entries of a level in order. */
  function Row(h: Heap, chain: seq<Addr>): (es: seq<Entry>)
    ensures |es| == |chain| && forall j :: 0 <= j < |chain| ==> es[j] == EntryAt(h, chain[j])
  {
    seq(|chain|, j requires 0 <= j < |chain| => EntryAt(h, chain[j]))
  }

  /** A marked link at level i belongs to a dead node or to the head of an empty level. */
  ghost predicate MarksOk(h: Heap, head: Addr, i: nat, chain: seq<Addr>) {
    forall j {:trigger Nth(head, chain, j)} :: 0 <= j <= |chain| && LinkAt(h, Nth(head, chain, j), i).tag ==>
      if j == 0 then chain == [] else EntryAt(h, chain[j - 1]).dead
  }

  ghost predicate SortedLevel(h: Heap, head: Addr, i: nat, chain: seq<Addr>) {
    Level(h, head, i, chain) && Sorted(Row(h, chain)) && MarksOk(h, head, i, chain)
  }

  /** Level 0: sorted, dead entries included, and the head is never dead. */
  ghost predicate Base(h: Heap, head: Addr, chain: seq<Addr>) {
    SortedLevel(h, head, 0, chain) && !LinkAt(h, head, 0).tag
  }

  /** The levels that link a. */
  function Tower(levels: seq<seq<Addr>>, a: Addr): set<nat> {
    set i: nat | i < |levels| && a in levels[i]
  }

  predicate Nested(levels: seq<seq<Addr>>) {
    forall i, a {:trigger a in levels[i]} :: 0 < i < |levels| && a in levels[i] ==> a in levels[i - 1]
  }

  /**
   * A skip list: level 0 is the map, each level is a sorted list of nodes of the one
   * below, dead or live, and link_count counts the levels that link a node.
   */
  ghost predicate SkipOk(h: Heap, head: Addr, levels: seq<seq<Addr>>) {
    && |levels| > 0 && Base(h, head, levels[0]) && Nested(levels)
    && (forall i {:trigger levels[i]} :: 0 <= i < |levels| ==> SortedLevel(h, head, i, levels[i]))
    && (forall a :: a in levels[0] ==> RefsOk(h, levels, a))
  }

  predicate RefsOk(h: Heap, levels: seq<seq<Addr>>, a: Addr) {
    a in h && h[a].refs == |Tower(levels, a)|
  }

  lemma LinkNth(h: Heap, head: Addr, i: nat, chain: seq<Addr>, j: nat)
    requires Level(h, head, i, chain) && j <= |chain|
    ensures Has(h, Nth(head, chain, j), i) && LinkAt(h, Nth(head, chain, j), i).ptr == After(chain, j)
    ensures j < |chain| ==>
              && Nth(head, chain, j) != chain[j] && Has(h, chain[j], i) && Has(h, chain[j], 0)
              && chain[j] != 0 && Row(h, chain)[j] == EntryAt(h, chain[j])
  {
    assert j < |chain| ==> Nth(head, chain, j + 1) == chain[j];
  }

  lemma {:induction false} NestedDown(levels: seq<seq<Addr>>, a: Addr, i: nat, j: nat)
    requires Nested(levels) && j <= i < |levels| && a in levels[i]
    ensures a in levels[j]
    decreases i - j
  {
    if j < i {
      assert a in levels[i - 1];
      NestedDown(levels, a, i - 1, j);
    }
  }

  // ---------------------------------------------------------------- unlinking from one level

  function Drop(chain: seq<Addr>, p: nat): seq<Addr>
    requires p < |chain|
  {
    chain[..p] + chain[p + 1..]
  }

  /** prev's link at level i leads past the dead node at p, which loses a reference; without any left it is gone. */
  function Cut(h: Heap, head: Addr, i: nat, chain: seq<Addr>, p: nat): Heap
    requires p < |chain| && Has(h, Nth(head, chain, p), i) && Has(h, chain[p], i)
  {
    var prev, cur := Nth(head, chain, p), chain[p];
    var h1 := h[prev := h[prev].(next := h[prev].next[i := Clear(h[cur].next[i])])];
    var left := h[cur].refs - 1;
    if left == 0 then h1 - {cur} else h1[cur := h[cur].(refs := left)]
  }

  /** ... on level 0, if it can be. */
  function Unlinked(h: Heap, head: Addr, chain: seq<Addr>, p: nat): Heap {
    if p < |chain| && Has(h, Nth(head, chain, p), 0) && Has(h, chain[p], 0) then Cut(h, head, 0, chain, p) else h
  }

  lemma SortedWithout(es: seq<Entry>, p: nat)
    requires Sorted(es) && p < |es|
    ensures Sorted(Without(es, p))
  {
  }

  /** Where the j-th node of the shorter level was. */
  lemma DropNth(head: Addr, chain: seq<Addr>, p: nat, j: nat)
    requires p < |chain| && j < |chain|
    ensures Nth(head, Drop(chain, p), j) == Nth(head, chain, if j <= p then j else j + 1)
    ensures After(Drop(chain, p), j) == After(chain, if j < p then j else j + 1)
  {
  }

  /** One link of level i after the cut: prev's skips a node, the others stay. */
  lemma CutLink(h: Heap, head: Addr, i: nat, chain: seq<Addr>, p: nat, j: nat)
    requires Level(h, head, i, chain) && p < |chain| && j < |chain|
    requires Has(h, Nth(head, chain, p), i) && Has(h, chain[p], i)
    ensures var h', a := Cut(h, head, i, chain, p), Nth(head, Drop(chain, p), j);
            && Has(h', a, i) && Has(h', a, 0) && LinkAt(h', a, i).ptr == After(Drop(chain, p), j)
            && (LinkAt(h', a, i).tag ==> LinkAt(h, a, i).tag)
  {
    DropNth(head, chain, p, j);
    var k := if j <= p then j else j + 1;
    LinkNth(h, head, i, chain, k);
    LinkNth(h, head, i, chain, p);
    LinkNth(h, head, i, chain, p + 1);
    assert Nth(head, chain, p + 1) == chain[p];
  }

  /** Level i itself loses exactly the entry at p. */
  lemma CutLevel(h: Heap, head: Addr, i: nat, chain: seq<Addr>, p: nat)
    requires SortedLevel(h, head, i, chain) && p < |chain| && EntryAt(h, chain[p]).dead
    requires p > 0 ==> !EntryAt(h, chain[p - 1]).dead
    ensures Has(h, Nth(head, chain, p), i) && Has(h, chain[p], i) && Nth(head, chain, p) != chain[p]
    ensures var h' := Cut(h, head, i, chain, p);
            SortedLevel(h', head, i, Drop(chain, p)) && Row(h', Drop(chain, p)) == Without(Row(h, chain), p)
  {
    LinkNth(h, head, i, chain, p);
    LinkNth(h, head, i, chain, p + 1);
    CutEntries(h, head, i, chain, p);
    var h', rest := Cut(h, head, i, chain, p), Drop(chain, p);
    hide Cut;
    SortedWithout(Row(h, chain), p);
    forall j {:trigger Nth(head, rest, j)} | 0 <= j <= |rest|
      ensures Has(h', Nth(head, rest, j), i) && Has(h', Nth(head, rest, j), 0)
      ensures LinkAt(h', Nth(head, rest, j), i).ptr == After(rest, j)
      ensures LinkAt(h', Nth(head, rest, j), i).tag ==> if j == 0 then rest == [] else EntryAt(h', rest[j - 1]).dead
    {
      CutLink(h, head, i, chain, p, j);
      DropNth(head, chain, p, j);
      assert j > 0 ==> Row(h', rest)[j - 1] == Without(Row(h, chain), p)[j - 1];
    }
  }

  /** The entries that stay on the level do not change. */
  lemma CutEntries(h: Heap, head: Addr, i: nat, chain: seq<Addr>, p: nat)
    requires Level(h, head, i, chain) && p < |chain|
    requires Has(h, Nth(head, chain, p), i) && Has(h, chain[p], i)
    requires p > 0 ==> !EntryAt(h, chain[p - 1]).dead
    ensures Row(Cut(h, head, i, chain, p), Drop(chain, p)) == Without(Row(h, chain), p)
  {
    var h', rest := Cut(h, head, i, chain, p), Drop(chain, p);
    forall j | 0 <= j < |rest|
      ensures EntryAt(h', rest[j]) == EntryAt(h, rest[j]) && rest[j] == chain[if j < p then j else j + 1]
    {
      assert rest[j] != chain[p];
      assert Nth(head, chain, 0) == head;
    }
    assert |Row(h', rest)| == |Without(Row(h, chain), p)|;
  }

  /** A cut leaves every node's entry alone, but for the node that goes. */
  lemma CutEntry(h: Heap, head: Addr, i: nat, chain: seq<Addr>, p: nat, a: Addr)
    requires Level(h, head, i, chain) && p < |chain| && Has(h, Nth(head, chain, p), i) && Has(h, chain[p], i)
    requires p > 0 ==> !EntryAt(h, chain[p - 1]).dead
    requires a != head && (a == chain[p] ==> h[a].refs != 1)
    ensures EntryAt(Cut(h, head, i, chain, p), a) == EntryAt(h, a)
  {
    assert Nth(head, chain, p + 1) == chain[p];
    assert Nth(head, chain, p) != chain[p];
  }

  /** A cut leaves the links of every other level alone. */
  lemma CutElsewhere(h: Heap, head: Addr, i: nat, chain: seq<Addr>, p: nat, j: nat, level: seq<Addr>)
    requires Level(h, head, i, chain) && p < |chain| && Has(h, Nth(head, chain, p), i) && Has(h, chain[p], i)
    requires p > 0 ==> !EntryAt(h, chain[p - 1]).dead
    requires SortedLevel(h, head, j, level) && j != i && (h[chain[p]].refs == 1 ==> chain[p] !in level)
    ensures SortedLevel(Cut(h, head, i, chain, p), head, j, level)
    ensures Row(Cut(h, head, i, chain, p), level) == Row(h, level)
  {
    var h' := Cut(h, head, i, chain, p);
    assert Nth(head, chain, p + 1) == chain[p];
    assert Nth(head, chain, p) != chain[p];
    forall k | 0 <= k < |level| ensures EntryAt(h', level[k]) == EntryAt(h, level[k]) {
      CutEntry(h, head, i, chain, p, level[k]);
    }
    assert Row(h', level) == Row(h, level);
    forall k {:trigger Nth(head, level, k)} | 0 <= k <= |level|
      ensures Has(h', Nth(head, level, k), j) && Has(h', Nth(head, level, k), 0)
      ensures LinkAt(h', Nth(head, level, k), j) == LinkAt(h, Nth(head, level, k), j)
    {
      LinkNth(h, head, j, level, k);
    }
    hide Cut;
    SameMarks(h, h', head, j, level);
  }

  lemma SameMarks(h: Heap, h': Heap, head: Addr, j: nat, level: seq<Addr>)
    requires MarksOk(h, head, j, level) && Row(h', level) == Row(h, level)
    requires forall k {:trigger Nth(head, level, k)} :: 0 <= k <= |level| ==>
               LinkAt(h', Nth(head, level, k), j) == LinkAt(h, Nth(head, level, k), j)
    ensures MarksOk(h', head, j, level)
  {
    forall k {:trigger Nth(head, level, k)} | 0 <= k <= |level| && LinkAt(h', Nth(head, level, k), j).tag
      ensures if k == 0 then level == [] else EntryAt(h', level[k - 1]).dead
    {
      assert k > 0 ==> Row(h', level)[k - 1] == Row(h, level)[k - 1];
    }
  }

  /** Unlinking a node from level i takes that level out of its tower. */
  lemma TowerDrop(levels: seq<seq<Addr>>, i: nat, p: nat, a: Addr)
    requires i < |levels| && p < |levels[i]| && Distinct(levels[i])
    ensures var levels' := levels[i := Drop(levels[i], p)];
            Tower(levels', a) == if a == levels[i][p] then Tower(levels, a) - {i} else Tower(levels, a)
  {
    DropHas(levels[i], p, a);
  }

  lemma DropHas(chain: seq<Addr>, p: nat, a: Addr)
    requires p < |chain| && Distinct(chain)
    ensures a in Drop(chain, p) <==> a in chain && a != chain[p]
  {
    if a in chain && a != chain[p] {
      var x :| 0 <= x < |chain| && chain[x] == a;
      assert Drop(chain, p)[if x < p then x else x - 1] == a;
    }
  }

  lemma NestedDrop(levels: seq<seq<Addr>>, i: nat, p: nat)
    requires Nested(levels) && i < |levels| && p < |levels[i]|
    requires Distinct(levels[i])
    requires i + 1 < |levels| ==> levels[i][p] !in levels[i + 1]
    ensures Nested(levels[i := Drop(levels[i], p)])
  {
    var levels' := levels[i := Drop(levels[i], p)];
    forall j, a {:trigger a in levels'[j]} | 0 < j < |levels'| && a in levels'[j] ensures a in levels'[j - 1] {
      DropHas(levels[i], p, a);
      assert a in levels[j];
    }
  }

  /** The only level of a node with one reference is level 0. */
  lemma OneReference(h: Heap, head: Addr, levels: seq<seq<Addr>>, i: nat, a: Addr)
    requires SkipOk(h, head, levels) && i < |levels| && a in levels[i] && a in h && h[a].refs == 1
    ensures i == 0 && forall j {:trigger levels[j]} :: 0 < j < |levels| ==> a !in levels[j]
  {
    NestedDown(levels, a, i, 0);
    var t := Tower(levels, a);
    assert 0 in t && |t| == 1;
    forall j {:trigger levels[j]} | 0 < j < |levels| ensures a !in levels[j] {
      if j in t {
        assert {0, j} <= t;
        SubsetSize({0, j}, t);
        assert false;
      }
    }
  }

  lemma SubsetSize(s: set<nat>, t: set<nat>)
    requires s <= t
    ensures |s| <= |t|
  {
    if s != {} {
      var x :| x in s;
      SubsetSize(s - {x}, t - {x});
    }
  }

  /** A cut of level i, the topmost that links the dead node, keeps the whole skip list. */
  lemma CutKeeps(h: Heap, head: Addr, levels: seq<seq<Addr>>, i: nat, p: nat)
    requires SkipOk(h, head, levels) && i < |levels| && p < |levels[i]| && EntryAt(h, levels[i][p]).dead
    requires p > 0 ==> !EntryAt(h, levels[i][p - 1]).dead
    requires i + 1 < |levels| ==> levels[i][p] !in levels[i + 1]
    ensures Has(h, Nth(head, levels[i], p), i) && Has(h, levels[i][p], i)
    ensures SkipOk(Cut(h, head, i, levels[i], p), head, levels[i := Drop(levels[i], p)])
    ensures h[levels[i][p]].refs == 1 <==> i == 0
  {
    var chain := levels[i];
    var cur := chain[p];
    assert SortedLevel(h, head, i, chain);
    CutLevel(h, head, i, chain, p);
    var h', levels' := Cut(h, head, i, chain, p), levels[i := Drop(chain, p)];
    TopmostRefs(h, head, levels, i, cur);
    NestedDrop(levels, i, p);
    forall j {:trigger levels'[j]} | 0 <= j < |levels'| ensures SortedLevel(h', head, j, levels'[j]) {
      if j != i {
        assert SortedLevel(h, head, j, levels[j]);
        if h[cur].refs == 1 {
          OneReference(h, head, levels, i, cur);
        }
        CutElsewhere(h, head, i, chain, p, j, levels[j]);
      }
    }
    forall a | a in levels'[0] ensures RefsOk(h', levels', a) {
      CutRefs(h, head, levels, i, p, a);
    }
    CutHead(h, head, i, chain, p);
    assert SortedLevel(h', head, 0, levels'[0]);
  }

  /** A node linked at level i and no higher is linked at all levels from i down. */
  lemma TopmostRefs(h: Heap, head: Addr, levels: seq<seq<Addr>>, i: nat, a: Addr)
    requires SkipOk(h, head, levels) && i < |levels| && a in levels[i] && (i + 1 < |levels| ==> a !in levels[i + 1])
    ensures a in h && (h[a].refs == 1 <==> i == 0)
  {
    NestedDown(levels, a, i, 0);
    var t := Tower(levels, a);
    if i == 0 {
      forall j | j in t ensures j == 0 {
        if j > 0 { NestedDown(levels, a, j, 1); }
      }
      assert t == {0};
    } else if h[a].refs == 1 {
      OneReference(h, head, levels, i, a);
    }
  }

  lemma CutRefs(h: Heap, head: Addr, levels: seq<seq<Addr>>, i: nat, p: nat, a: Addr)
    requires SkipOk(h, head, levels) && i < |levels| && p < |levels[i]|
    requires Has(h, Nth(head, levels[i], p), i) && Has(h, levels[i][p], i) && Nth(head, levels[i], p) != levels[i][p]
    requires h[levels[i][p]].refs == 1 <==> i == 0
    requires a in levels[i := Drop(levels[i], p)][0]
    ensures var h', levels' := Cut(h, head, i, levels[i], p), levels[i := Drop(levels[i], p)];
            RefsOk(h', levels', a)
  {
    assert SortedLevel(h, head, i, levels[i]);
    TowerDrop(levels, i, p, a);
    DropHas(levels[i], p, a);
    assert a in levels[0] && RefsOk(h, levels, a);
    if a == levels[i][p] {
      assert i in Tower(levels, a);
    }
  }

  lemma CutHead(h: Heap, head: Addr, i: nat, chain: seq<Addr>, p: nat)
    requires Level(h, head, i, chain) && p < |chain| && Has(h, Nth(head, chain, p), i) && Has(h, chain[p], i)
    requires !LinkAt(h, head, 0).tag
    ensures !LinkAt(Cut(h, head, i, chain, p), head, 0).tag
  {
  }

  // ---------------------------------------------------------------- find

  /** marked(ptr, level): above level 0 a marked null is an ordinary null. */
  predicate MarkedAt(w: Word, i: nat) {
    if i == 0 then Marked0(w) else w.tag && w.ptr != 0
  }

  /** A node on a level counts as dead exactly when its level-0 link is marked. */
  lemma DeadOnLevel(h: Heap, head: Addr, i: nat, chain: seq<Addr>, j: nat)
    requires SortedLevel(h, head, i, chain) && j < |chain|
    ensures Has(h, chain[j], i) && Has(h, chain[j], 0)
    ensures MarkedAt(h[chain[j]].next[i], i) || Marked0(h[chain[j]].next[0]) <==> EntryAt(h, chain[j]).dead
  {
    LinkNth(h, head, i, chain, j);
    assert Nth(head, chain, j + 1) == chain[j];
  }

  /** The unlinking of cur after prev: whoever takes the last reference retires the node. */
  method UnlinkAt(h: Heap, head: Addr, i: nat, ghost chain: seq<Addr>, ghost p: nat, prev: Addr, cur: Addr)
    returns (h': Heap, gone: seq<Addr>)
    requires p < |chain| && prev == Nth(head, chain, p) && cur == chain[p] && Has(h, prev, i) && Has(h, cur, i)
    requires prev != cur
    ensures h' == Cut(h, head, i, chain, p) && gone == if h[cur].refs == 1 then [cur] else []
  {
    var nexti := h[cur].next[i];
    var left := h[cur].refs - 1;
    h', gone := h[prev := h[prev].(next := h[prev].next[i := Clear(nexti)])], [];
    if left == 0 {
      h', gone := h' - {cur}, [cur];
    } else {
      h' := h'[cur := h'[cur].(refs := left)];
    }
  }

  /** The search of level i stopped at p: at a dead node it unlinks, anywhere else it changes nothing. */
  ghost predicate Walked(h: Heap, head: Addr, i: nat, chain: seq<Addr>, p: nat, h': Heap, prev: Addr, cur: Addr,
      gone: seq<Addr>) {
    && prev == Nth(head, chain, p)
    && if HitsDead(Row(h, chain), p) then
         && Has(h, prev, i) && Has(h, chain[p], i) && cur == 0 && h' == Cut(h, head, i, chain, p)
         && gone == (if h[chain[p]].refs == 1 then [chain[p]] else [])
       else cur == After(chain, p) && h' == h && gone == []
  }

  /**
   * find on one level: from start, the head or a live node, advance to the last node
   * before a dead one, a key not below the one sought, or the end; unlink a dead one.
   */
  method WalkLevel(h: Heap, head: Addr, i: nat, ghost chain: seq<Addr>, start: Addr, key: int)
    returns (h': Heap, prev: Addr, cur: Addr, gone: seq<Addr>)
    requires SortedLevel(h, head, i, chain) && (start == head || (start in chain && !EntryAt(h, start).dead))
    ensures Walked(h, head, i, chain, Scan(Row(h, chain), key, Place(chain, start)), h', prev, cur, gone)
  {
    hide Level, Sorted, MarksOk, Cut, Place, Row;
    h', prev, gone := h, start, [];
    ghost var from, es := Place(chain, start), Row(h, chain);
    ghost var p := from;
    LinkNth(h, head, i, chain, p);
    var link := h[prev].next[i];
    while Clear(link).ptr != 0
      invariant from <= p <= |chain| && prev == Nth(head, chain, p) && link.ptr == After(chain, p)
      invariant prev == head || !EntryAt(h, prev).dead
      invariant Scan(es, key, p) == Scan(es, key, from)
      decreases |chain| - p
    {
      LinkNth(h, head, i, chain, p);
      LinkNth(h, head, i, chain, p + 1);
      DeadOnLevel(h, head, i, chain, p);
      cur := link.ptr;
      var next := h[cur].next[i];
      if MarkedAt(next, i) || Marked0(h[cur].next[0]) {
        h', gone := UnlinkAt(h, head, i, chain, p, prev, cur);
        cur := 0;
        return;
      }
      if h[cur].key >= key {
        return;
      }
      prev, link := cur, next;
      p := p + 1;
    }
    LinkNth(h, head, i, chain, p);
    cur := 0;
  }

  // ---------------------------------------------------------------- find on all levels

  /** The node from which find searches level i: where it stood on the level above. */
  function Start(h: Heap, head: Addr, levels: seq<seq<Addr>>, i: nat, key: int): Addr
    requires i < |levels|
    decreases |levels| - i, 0
  {
    if i + 1 == |levels| then head else Nth(head, levels[i + 1], Stop(h, head, levels, i + 1, key))
  }

  /** Where find's search of level i stops. */
  function Stop(h: Heap, head: Addr, levels: seq<seq<Addr>>, i: nat, key: int): (p: nat)
    requires i < |levels|
    ensures p <= |levels[i]|
    decreases |levels| - i, 1
  {
    Scan(Row(h, levels[i]), key, Place(levels[i], Start(h, head, levels, i, key)))
  }

  /** A level without the dead node at p, if that one is dead. */
  function Trim(h: Heap, chain: seq<Addr>, p: nat): seq<Addr> {
    if HitsDead(Row(h, chain), p) then Drop(chain, p) else chain
  }

  /** The levels once find has searched those from i up: each has lost the dead node at which it stopped. */
  function Tidied(h: Heap, head: Addr, levels: seq<seq<Addr>>, i: nat, key: int): (r: seq<seq<Addr>>)
    ensures |r| == |levels|
  {
    seq(|levels|, j requires 0 <= j < |levels| =>
      if j >= i then Trim(h, levels[j], Stop(h, head, levels, j, key)) else levels[j])
  }

  /** find goes down from the head or from a live node below the key, itself on the level below. */
  lemma {:induction false} StartBelow(h: Heap, head: Addr, levels: seq<seq<Addr>>, i: nat, key: int)
    requires SkipOk(h, head, levels) && i < |levels|
    ensures var a := Start(h, head, levels, i, key);
            a == head || (a in levels[i] && !EntryAt(h, a).dead && EntryAt(h, a).key < key)
    decreases |levels| - i
  {
    if i + 1 < |levels| {
      StartBelow(h, head, levels, i + 1, key);
      StopBelow(h, head, levels, i + 1, key);
      var a := Start(h, head, levels, i, key);
      if a != head {
        assert a in levels[i + 1];
      }
    }
  }

  /** Where it stops on a level, it stands on the head or on a live node below the key. */
  lemma StopBelow(h: Heap, head: Addr, levels: seq<seq<Addr>>, i: nat, key: int)
    requires SkipOk(h, head, levels) && i < |levels|
    requires var a := Start(h, head, levels, i, key);
             a == head || (a in levels[i] && !EntryAt(h, a).dead && EntryAt(h, a).key < key)
    ensures var a := Nth(head, levels[i], Stop(h, head, levels, i, key));
            a == head || (a in levels[i] && !EntryAt(h, a).dead && EntryAt(h, a).key < key)
  {
    var from := Place(levels[i], Start(h, head, levels, i, key));
    var p, es := Stop(h, head, levels, i, key), Row(h, levels[i]);
    if p > from {
      assert !es[p - 1].dead && es[p - 1].key < key;
    }
  }

  /** Two levels agree on the entries of the nodes they share. */
  predicate Agree(lo: seq<Addr>, los: seq<Entry>, hi: seq<Addr>, his: seq<Entry>) {
    && |lo| == |los| && |hi| == |his| && (forall a :: a in hi ==> a in lo)
    && forall x, y :: 0 <= x < |hi| && 0 <= y < |lo| && hi[x] == lo[y] ==> his[x] == los[y]
  }

  lemma RowsAgree(h: Heap, lo: seq<Addr>, hi: seq<Addr>)
    requires forall a :: a in hi ==> a in lo
    ensures Agree(lo, Row(h, lo), hi, Row(h, hi))
  {
  }

  /** Below a sorted sublist that was left at p, a scan cannot stop at a later node of the sublist. */
  lemma NoOvertaking(
      lo: seq<Addr>, los: seq<Entry>, hi: seq<Addr>, his: seq<Entry>, from: nat, p: nat, q: nat, key: int)
    requires Agree(lo, los, hi, his) && Sorted(los) && Sorted(his) && p <= |hi| && from <= q < |lo|
    requires if p == 0 then from == 0 else from > 0 && lo[from - 1] == hi[p - 1]
    requires p < |hi| ==> his[p].dead || his[p].key >= key
    requires forall j :: from <= j < q ==> !los[j].dead && los[j].key < key
    ensures lo[q] in hi ==> p < |hi| && hi[p] == lo[q]
  {
    assert p > 0 ==> his[p - 1] == los[from - 1];
    if p < |hi| {
      assert hi[p] in lo;
      var y :| 0 <= y < |lo| && lo[y] == hi[p];
      assert his[p] == los[y];
    }
  }

  /** What a skip list says of one level and the one above. */
  lemma LevelFacts(h: Heap, head: Addr, levels: seq<seq<Addr>>, i: nat)
    requires SkipOk(h, head, levels) && i < |levels|
    ensures SortedLevel(h, head, i, levels[i]) && Sorted(Row(h, levels[i])) && head !in levels[i]
    ensures Distinct(levels[i])
    ensures i + 1 < |levels| ==> forall a :: a in levels[i + 1] ==> a in levels[i]
  {
    if i + 1 < |levels| {
      forall a | a in levels[i + 1] ensures a in levels[i] {
        NestedDown(levels, a, i + 1, i);
      }
    }
  }

  /** The search of level i begins at the node where that of the level above stopped. */
  lemma StartPlace(h: Heap, head: Addr, levels: seq<seq<Addr>>, i: nat, key: int)
    requires SkipOk(h, head, levels) && i + 1 < |levels|
    ensures var p, from := Stop(h, head, levels, i + 1, key), Place(levels[i], Start(h, head, levels, i, key));
            if p == 0 then from == 0 else from > 0 && levels[i][from - 1] == levels[i + 1][p - 1]
  {
    LevelFacts(h, head, levels, i);
    hide SkipOk, SortedLevel, Stop, Sorted, Distinct;
    var p := Stop(h, head, levels, i + 1, key);
    if p > 0 {
      assert levels[i + 1][p - 1] in levels[i + 1];
    }
  }

  lemma StopOvertakes(h: Heap, head: Addr, levels: seq<seq<Addr>>, i: nat, key: int)
    requires SkipOk(h, head, levels) && i + 1 < |levels| && Stop(h, head, levels, i, key) < |levels[i]|
    ensures var a, p := levels[i][Stop(h, head, levels, i, key)], Stop(h, head, levels, i + 1, key);
            a in levels[i + 1] ==> p < |levels[i + 1]| && levels[i + 1][p] == a
  {
    LevelFacts(h, head, levels, i);
    LevelFacts(h, head, levels, i + 1);
    StartPlace(h, head, levels, i, key);
    RowsAgree(h, levels[i], levels[i + 1]);
    hide SkipOk, SortedLevel, Sorted, Place, EntryAt, Distinct, Agree, Scan, Start;
    NoOvertaking(levels[i], Row(h, levels[i]), levels[i + 1], Row(h, levels[i + 1]),
      Place(levels[i], Start(h, head, levels, i, key)),
      Stop(h, head, levels, i + 1, key), Stop(h, head, levels, i, key), key);
  }

  lemma TrimLacks(h: Heap, lo: seq<Addr>, q: nat, hi: seq<Addr>, p: nat)
    requires HitsDead(Row(h, lo), q) && Distinct(hi) && (lo[q] in hi ==> p < |hi| && hi[p] == lo[q])
    ensures lo[q] !in Trim(h, hi, p)
  {
    if lo[q] in hi {
      assert Row(h, hi)[p] == Row(h, lo)[q];
      DropHas(hi, p, lo[q]);
    }
  }

  /** The dead node find stops at on one level it has already unlinked from the level above. */
  lemma CutIsTopmost(h: Heap, head: Addr, levels: seq<seq<Addr>>, i: nat, key: int)
    requires SkipOk(h, head, levels) && i + 1 < |levels| && HitsDead(Row(h, levels[i]), Stop(h, head, levels, i, key))
    ensures levels[i][Stop(h, head, levels, i, key)] !in Tidied(h, head, levels, i + 1, key)[i + 1]
  {
    StopOvertakes(h, head, levels, i, key);
    LevelFacts(h, head, levels, i + 1);
    hide SkipOk, SortedLevel, Stop, Distinct, Sorted, Trim;
    TrimLacks(h, levels[i], Stop(h, head, levels, i, key), levels[i + 1], Stop(h, head, levels, i + 1, key));
  }

  lemma TidiedNone(h: Heap, head: Addr, levels: seq<seq<Addr>>, key: int)
    ensures Tidied(h, head, levels, |levels|, key) == levels
  {
  }

  /** No node of the skip list has changed its key, its value or its mark. */
  ghost predicate SameEntries(h: Heap, h': Heap, levels: seq<seq<Addr>>) {
    |levels| > 0 && forall a :: a in levels[0] ==> EntryAt(h', a) == EntryAt(h, a)
  }

  lemma SameRow(h: Heap, h': Heap, head: Addr, levels: seq<seq<Addr>>, i: nat)
    requires SkipOk(h, head, levels) && i < |levels| && SameEntries(h, h', levels)
    ensures Row(h', levels[i]) == Row(h, levels[i])
  {
    forall j | 0 <= j < |levels[i]| ensures EntryAt(h', levels[i][j]) == EntryAt(h, levels[i][j]) {
      NestedDown(levels, levels[i][j], i, 0);
    }
    assert |Row(h', levels[i])| == |Row(h, levels[i])|;
  }

  lemma TidiedNext(h: Heap, head: Addr, levels: seq<seq<Addr>>, i: nat, key: int)
    requires i < |levels|
    ensures var before := Tidied(h, head, levels, i + 1, key);
            && |before| == |levels| && before[i] == levels[i] && before[0] == levels[0]
            && Tidied(h, head, levels, i, key) == before[i := Trim(h, levels[i], Stop(h, head, levels, i, key))]
  {
    hide Stop, Trim;
  }

  lemma PrevLive(h: Heap, head: Addr, levels: seq<seq<Addr>>, i: nat, key: int)
    requires SkipOk(h, head, levels) && i < |levels|
    ensures var p := Stop(h, head, levels, i, key); p > 0 ==> !EntryAt(h, levels[i][p - 1]).dead
  {
    StartBelow(h, head, levels, i, key);
    StopBelow(h, head, levels, i, key);
    LevelFacts(h, head, levels, i);
    hide SkipOk, SortedLevel, Stop, Distinct, Sorted;
    var p := Stop(h, head, levels, i, key);
    assert p > 0 ==> levels[i][p - 1] in levels[i];
  }

  /** Above level 0 a cut changes no entry; on level 0 it takes out the dead one. */
  lemma CutEffect(g: Heap, head: Addr, levels: seq<seq<Addr>>, i: nat, p: nat)
    requires SkipOk(g, head, levels) && i < |levels| && p < |levels[i]| && EntryAt(g, levels[i][p]).dead
    requires p > 0 ==> !EntryAt(g, levels[i][p - 1]).dead
    requires i + 1 < |levels| ==> levels[i][p] !in levels[i + 1]
    ensures Has(g, Nth(head, levels[i], p), i) && Has(g, levels[i][p], i) && (g[levels[i][p]].refs == 1 <==> i == 0)
    ensures var g' := Cut(g, head, i, levels[i], p);
            && SkipOk(g', head, levels[i := Drop(levels[i], p)])
            && (i > 0 ==> SameEntries(g, g', levels))
            && (i == 0 ==> Row(g', Drop(levels[0], p)) == Without(Row(g, levels[0]), p))
  {
    CutKeeps(g, head, levels, i, p);
    LevelFacts(g, head, levels, i);
    LevelFacts(g, head, levels, 0);
    if i == 0 {
      CutLevel(g, head, 0, levels[0], p);
    } else {
      hide SkipOk, Cut, Sorted, Distinct;
      forall a | a in levels[0] ensures EntryAt(Cut(g, head, i, levels[i], p), a) == EntryAt(g, a) {
        CutEntry(g, head, i, levels[i], p, a);
      }
    }
  }

  /** What find does to level i at p: heap g becomes g', and `before` loses the entry at p if it is dead. */
  ghost predicate Searched(h: Heap, g: Heap, head: Addr, levels: seq<seq<Addr>>, after: seq<seq<Addr>>, i: nat, p: nat)
    requires i < |levels|
  {
    var level := levels[i];
    && SortedLevel(g, head, i, level) && Row(g, level) == Row(h, level)
    && if !HitsDead(Row(h, level), p) then SkipOk(g, head, after)
       else
         && Has(g, Nth(head, level, p), i) && Has(g, level[p], i) && (g[level[p]].refs == 1 <==> i == 0)
         && SkipOk(Cut(g, head, i, level, p), head, after)
         && (i > 0 ==> SameEntries(h, Cut(g, head, i, level, p), levels))
         && (i == 0 ==> Row(Cut(g, head, i, level, p), Drop(level, p)) == Without(Row(h, level), p))
  }

  lemma SearchOne(h: Heap, g: Heap, head: Addr, levels: seq<seq<Addr>>, before: seq<seq<Addr>>, i: nat, p: nat)
    requires i < |levels| && SameEntries(h, g, levels) && Row(g, levels[i]) == Row(h, levels[i])
    requires SkipOk(g, head, before) && |before| == |levels| && before[i] == levels[i] && before[0] == levels[0]
    requires p > 0 ==> p <= |levels[i]| && !EntryAt(h, levels[i][p - 1]).dead
    requires HitsDead(Row(h, levels[i]), p) && i + 1 < |levels| ==> levels[i][p] !in before[i + 1]
    ensures Searched(h, g, head, levels, before[i := Trim(h, levels[i], p)], i, p)
  {
    LevelFacts(g, head, before, i);
    hide SortedLevel, Distinct, Sorted, Cut, Nested;
    if HitsDead(Row(h, levels[i]), p) {
      assert Row(g, levels[i])[p].dead && (p > 0 ==> Row(g, levels[i])[p - 1] == Row(h, levels[i])[p - 1]);
      CutEffect(g, head, before, i, p);
    } else {
      assert before[i := levels[i]] == before;
    }
  }

  /** One level of find, after the levels above have been searched in heap g. */
  lemma TidyStep(h: Heap, g: Heap, head: Addr, levels: seq<seq<Addr>>, i: nat, key: int)
    requires SkipOk(h, head, levels) && i < |levels| && SameEntries(h, g, levels)
    requires SkipOk(g, head, Tidied(h, head, levels, i + 1, key))
    ensures Searched(h, g, head, levels, Tidied(h, head, levels, i, key), i, Stop(h, head, levels, i, key))
  {
    hide SkipOk, Stop, Tidied, Searched, Scan, EntryAt;
    var before := Tidied(h, head, levels, i + 1, key);
    SameRow(h, g, head, levels, i);
    TidiedNext(h, head, levels, i, key);
    PrevLive(h, head, levels, i, key);
    if HitsDead(Row(h, levels[i]), Stop(h, head, levels, i, key)) && i + 1 < |levels| {
      CutIsTopmost(h, head, levels, i, key);
    }
    SearchOne(h, g, head, levels, before, i, Stop(h, head, levels, i, key));
  }

  predicate NoIndex(levels: seq<seq<Addr>>) {
    forall i :: 0 < i < |levels| ==> levels[i] == []
  }

  /** A dead node of level 0 lies at or before the node from which find searches level 0. */
  ghost predicate DeadSkipped(h: Heap, head: Addr, levels: seq<seq<Addr>>, key: int)
    requires |levels| > 0
  {
    exists i :: 0 <= i < Place(levels[0], Start(h, head, levels, 0, key)) && EntryAt(h, levels[0][i]).dead
  }

  lemma SkippedBelow(h: Heap, head: Addr, levels: seq<seq<Addr>>, key: int)
    requires SkipOk(h, head, levels)
    ensures var es := Row(h, levels[0]);
            forall i :: 0 <= i < Place(levels[0], Start(h, head, levels, 0, key)) ==> es[i].key < key
  {
    StartBelow(h, head, levels, 0, key);
    LevelFacts(h, head, levels, 0);
    hide SkipOk, SortedLevel, Start, Distinct;
    var es, start := Row(h, levels[0]), Start(h, head, levels, 0, key);
    var from := Place(levels[0], start);
    if from > 0 {
      assert es[from - 1] == EntryAt(h, start);
    }
  }

  /** find's place is where a plain scan of level 0 ends if and only if the index skipped no dead node. */
  lemma StopAgrees(h: Heap, head: Addr, levels: seq<seq<Addr>>, key: int)
    requires SkipOk(h, head, levels)
    ensures Stop(h, head, levels, 0, key) == Scan(Row(h, levels[0]), key, 0) <==> !DeadSkipped(h, head, levels, key)
  {
    SkippedBelow(h, head, levels, key);
    hide SkipOk, Start, Scan;
    ScanAgrees(Row(h, levels[0]), key, Place(levels[0], Start(h, head, levels, 0, key)));
  }

  /** Nothing dead is skipped where there is no index to skip with, or nothing dead. */
  lemma NothingSkipped(h: Heap, head: Addr, levels: seq<seq<Addr>>, key: int)
    requires SkipOk(h, head, levels) && (NoIndex(levels) || NoneDead(Row(h, levels[0])))
    ensures !DeadSkipped(h, head, levels, key)
  {
    LevelFacts(h, head, levels, 0);
    hide SkipOk, SortedLevel, Sorted, Distinct, Stop;
    if !NoIndex(levels) {
      forall i | 0 <= i < |levels[0]| ensures !EntryAt(h, levels[0][i]).dead {
        assert !Row(h, levels[0])[i].dead;
      }
    }
  }

  /** find's result on the levels, from what it returns and the heap it leaves. */
  ghost predicate Found(
      h: Heap, h': Heap, head: Addr, levels: seq<seq<Addr>>, key: int, prev: Addr, cur: Addr, gone: seq<Addr>)
    requires |levels| > 0
  {
    var p, es := Stop(h, head, levels, 0, key), Row(h, levels[0]);
    var levels' := Tidied(h, head, levels, 0, key);
    && prev == Nth(head, levels[0], p)
    && cur == (if HitsDead(es, p) then 0 else After(levels[0], p))
    && gone == (if HitsDead(es, p) then [levels[0][p]] else [])
    && SkipOk(h', head, levels') && Row(h', levels'[0]) == (if HitsDead(es, p) then Without(es, p) else es)
    && (NoIndex(levels) ==> h' == if HitsDead(es, p) then Unlinked(h, head, levels[0], p) else h)
  }

  lemma FoundMatch(h: Heap, h': Heap, head: Addr, levels: seq<seq<Addr>>, key: int, prev: Addr, cur: Addr,
      gone: seq<Addr>)
    requires |levels| > 0 && Found(h, h', head, levels, key, prev, cur, gone)
    ensures cur != 0 ==> cur in h'
    ensures Match(Row(h, levels[0]), key, Stop(h, head, levels, 0, key)) <==> cur != 0 && h'[cur].key == key
  {
    var p, levels' := Stop(h, head, levels, 0, key), Tidied(h, head, levels, 0, key);
    LevelFacts(h', head, levels', 0);
    TidiedNext(h, head, levels, 0, key);
    hide SkipOk, Stop, Sorted, Distinct, MarksOk, Tidied;
    if !HitsDead(Row(h, levels[0]), p) {
      LinkNth(h', head, 0, levels'[0], p);
    }
  }

  /** find between levels, or done: the levels from i up are searched. */
  ghost predicate Going(
      h: Heap, h': Heap, head: Addr, levels: seq<seq<Addr>>, i: nat, key: int, prev: Addr, cur: Addr, gone: seq<Addr>)
    requires |levels| > 0 && i <= |levels|
  {
    if i == 0 then Found(h, h', head, levels, key, prev, cur, gone)
    else
      && SkipOk(h', head, Tidied(h, head, levels, i, key)) && SameEntries(h, h', levels)
      && gone == [] && prev == Start(h, head, levels, i - 1, key) && (NoIndex(levels) ==> h' == h)
  }

  lemma GoesOn(
      h: Heap, g: Heap, g': Heap, head: Addr, levels: seq<seq<Addr>>, i: nat, key: int, prev: Addr, cur: Addr,
          gone: seq<Addr>)
    requires i < |levels| && SameEntries(h, g, levels) && (NoIndex(levels) ==> g == h)
    requires Searched(h, g, head, levels, Tidied(h, head, levels, i, key), i, Stop(h, head, levels, i, key))
    requires Walked(g, head, i, levels[i], Stop(h, head, levels, i, key), g', prev, cur, gone)
    ensures Going(h, g', head, levels, i, key, prev, cur, gone)
  {
    TidiedNext(h, head, levels, i, key);
    hide Stop, SkipOk, Tidied, Cut, SortedLevel;
  }

  /**
   * Whatever the index holds, find changes nothing in the map, and it matches exactly
   * when the key is in the map and no dead node lies between where the index left it
   * and the key.
   */
  lemma FoundExactly(
      h: Heap, h': Heap, head: Addr, levels: seq<seq<Addr>>, key: int, prev: Addr, cur: Addr, gone: seq<Addr>)
    requires SkipOk(h, head, levels) && Found(h, h', head, levels, key, prev, cur, gone)
    ensures var es, p := Row(h, levels[0]), Stop(h, head, levels, 0, key);
            && Contents(Row(h', Tidied(h, head, levels, 0, key)[0])) == Contents(es)
            && (Match(es, key, p) <==>
                  key in Contents(es) && !DeadBelow(es, key, Place(levels[0], Start(h, head, levels, 0, key))))
  {
    var es, p := Row(h, levels[0]), Stop(h, head, levels, 0, key);
    LevelFacts(h, head, levels, 0);
    SkippedBelow(h, head, levels, key);
    hide SkipOk, Sorted, Scan, Start, Contents;
    MatchFrom(es, key, Place(levels[0], Start(h, head, levels, 0, key)));
    if HitsDead(es, p) {
      UnlinkKeeps(es, p);
    }
  }

  /** Level 0 holds a dead 1 and a live 2, and 2 is also on level 1. */
  function Bypass(): Heap {
    map[1 := Node(0, 0, 0, [Word(2, false), Word(3, false)]),
        2 := Node(1, 10, 1, [Word(3, true)]),
        3 := Node(2, 20, 2, [NULL, NULL])]
  }

  lemma BypassOk()
    ensures SkipOk(Bypass(), 1, [[2, 3], [3]])
  {
    var h, levels := Bypass(), [[2, 3], [3]];
    assert SortedLevel(h, 1, 0, [2, 3]) by {
      assert Nth(1, [2, 3], 0) == 1 && Nth(1, [2, 3], 1) == 2 && Nth(1, [2, 3], 2) == 3;
    }
    assert SortedLevel(h, 1, 1, [3]) by {
      assert Nth(1, [3], 0) == 1 && Nth(1, [3], 1) == 3;
    }
    hide SortedLevel;
    assert Tower(levels, 2) == {0} && Tower(levels, 3) == {0, 1};
    assert RefsOk(h, levels, 2) && RefsOk(h, levels, 3);
  }

  /** The concrete case: the index leads past the dead 1, at which a plain scan for 3 would stop. */
  lemma IndexSkipsDead()
    ensures var levels := [[2, 3], [3]];
            && SkipOk(Bypass(), 1, levels) && DeadSkipped(Bypass(), 1, levels, 3)
            && Stop(Bypass(), 1, levels, 0, 3) == 2 && Scan(Row(Bypass(), levels[0]), 3, 0) == 0
  {
    BypassOk();
    hide SkipOk;
    var h, levels := Bypass(), [[2, 3], [3]];
    assert Row(h, [3])[0] == Entry(2, 20, false) && Row(h, [2, 3])[0].dead;
    assert Stop(h, 1, levels, 1, 3) == 1;
    assert Start(h, 1, levels, 0, 3) == 3 && Place([2, 3], 3) == 2;
    assert EntryAt(h, levels[0][0]).dead;
  }

  /**
   * find: level by level down from the top. Whatever the index, it leaves a skip list
   * with the same map; it reaches the place a plain scan of level 0 would reach exactly
   * when the index has not carried it past a dead node.
   */
  method Locate(h: Heap, head: Addr, height: nat, ghost levels: seq<seq<Addr>>, key: int)
    returns (h': Heap, prev: Addr, cur: Addr, matched: bool, gone: seq<Addr>)
    requires SkipOk(h, head, levels) && |levels| == height + 1
    ensures Found(h, h', head, levels, key, prev, cur, gone)
    ensures matched == Match(Row(h, levels[0]), key, Stop(h, head, levels, 0, key))
    ensures Stop(h, head, levels, 0, key) == Scan(Row(h, levels[0]), key, 0) <==> !DeadSkipped(h, head, levels, key)
    ensures NoIndex(levels) || NoneDead(Row(h, levels[0])) ==> !DeadSkipped(h, head, levels, key)
    ensures matched <==> key in Contents(Row(h, levels[0]))
                         && !DeadBelow(Row(h, levels[0]), key, Place(levels[0], Start(h, head, levels, 0, key)))
  {
    hide Stop, SkipOk, Contents, Scan, EntryAt, DeadSkipped, Searched, Walked, Found;
    h', prev, cur, gone := h, head, 0, [];
    var i := height + 1;
    TidiedNone(h, head, levels, key);
    while i > 0
      invariant 0 <= i <= height + 1
      invariant Going(h, h', head, levels, i, key, prev, cur, gone)
      decreases i
    {
      i := i - 1;
      StartBelow(h, head, levels, i, key);
      TidyStep(h, h', head, levels, i, key);
      TidyReady(h, h', head, levels, i, key, prev);
      ghost var g := h';
      h', prev, cur, gone := WalkLevel(h', head, i, levels[i], prev, key);
      GoesOn(h, g, h', head, levels, i, key, prev, cur, gone);
    }
    FoundMatch(h, h', head, levels, key, prev, cur, gone);
    matched := cur != 0 && h'[cur].key == key;
    StopAgrees(h, head, levels, key);
    FoundExactly(h, h', head, levels, key, prev, cur, gone);
    if NoIndex(levels) || NoneDead(Row(h, levels[0])) {
      NothingSkipped(h, head, levels, key);
    }
  }

  /** The search of level i may begin. */
  lemma TidyReady(h: Heap, g: Heap, head: Addr, levels: seq<seq<Addr>>, i: nat, key: int, start: Addr)
    requires i < |levels| && SkipOk(h, head, levels) && SameEntries(h, g, levels)
    requires Searched(h, g, head, levels, Tidied(h, head, levels, i, key), i, Stop(h, head, levels, i, key))
    requires start == Start(h, head, levels, i, key)
    ensures SortedLevel(g, head, i, levels[i]) && (start == head || (start in levels[i] && !EntryAt(g, start).dead))
    ensures Scan(Row(g, levels[i]), key, Place(levels[i], start)) == Stop(h, head, levels, i, key)
  {
    StartBelow(h, head, levels, i, key);
    if start != head {
      NestedDown(levels, start, i, 0);
    }
  }
}
