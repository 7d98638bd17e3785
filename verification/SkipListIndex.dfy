/** insert's index loop: linking a node, already on level 0, into the levels above. */
module SkipListIndex {
  import opened Words
  import opened SkipListSpec
  import opened SkipList

  // ---------------------------------------------------------------- linking into one level

  function Add(chain: seq<Addr>, p: nat, n: Addr): seq<Addr>
    requires p <= |chain|
  {
    chain[..p] + [n] + chain[p..]
  }

  /** n's link at level i leads to what prev's did, and prev's to n. */
  function LinkIn(h: Heap, head: Addr, i: nat, chain: seq<Addr>, p: nat, n: Addr): Heap
    requires p <= |chain| && Has(h, Nth(head, chain, p), i) && Has(h, n, i) && n != Nth(head, chain, p)
  {
    var prev := Nth(head, chain, p);
    var h1 := h[n := h[n].(next := h[n].next[i := Word(After(chain, p), false)])];
    h1[prev := h1[prev].(next := h1[prev].next[i := Word(n, false)])]
  }

  lemma AddNth(head: Addr, chain: seq<Addr>, p: nat, n: Addr, j: nat)
    requires p <= |chain| && j <= |chain| + 1
    ensures Nth(head, Add(chain, p, n), j) == if j == p + 1 then n else Nth(head, chain, if j <= p then j else j - 1)
    ensures After(Add(chain, p, n), j) == if j == p then n else After(chain, if j < p then j else j - 1)
  {
  }

  /** Linking n changes no entry of the level. */
  lemma LinkInEntry(h: Heap, head: Addr, i: nat, chain: seq<Addr>, p: nat, n: Addr, a: Addr)
    requires p <= |chain| && Has(h, Nth(head, chain, p), i) && Has(h, n, i) && n != Nth(head, chain, p)
    requires (i > 0 || a != head) && (p > 0 ==> !EntryAt(h, chain[p - 1]).dead) && !EntryAt(h, n).dead
    ensures EntryAt(LinkIn(h, head, i, chain, p, n), a) == EntryAt(h, a)
  {
  }

  lemma LinkInLink(h: Heap, head: Addr, i: nat, chain: seq<Addr>, p: nat, n: Addr, j: nat)
    requires Level(h, head, i, chain) && p <= |chain| && j <= |chain| + 1
    requires Has(h, Nth(head, chain, p), i) && Has(h, n, i) && n != Nth(head, chain, p) && n !in chain && n != head
    ensures var h', a := LinkIn(h, head, i, chain, p, n), Nth(head, Add(chain, p, n), j);
            && Has(h', a, i) && Has(h', a, 0) && LinkAt(h', a, i).ptr == After(Add(chain, p, n), j)
            && (LinkAt(h', a, i).tag ==> j != p && j != p + 1 && LinkAt(h, a, i).tag)
  {
    AddNth(head, chain, p, n, j);
    LinkNth(h, head, i, chain, p);
    if j != p + 1 {
      LinkNth(h, head, i, chain, if j <= p then j else j - 1);
      NthOnce(head, chain, p, if j <= p then j else j - 1);
    }
  }

  lemma NthOnce(head: Addr, chain: seq<Addr>, p: nat, j: nat)
    requires Distinct(chain) && head !in chain && p <= |chain| && j <= |chain|
    ensures Nth(head, chain, j) == Nth(head, chain, p) <==> j == p
  {
  }

  /** The level gains exactly n, at its place. */
  lemma LinkInLevel(h: Heap, head: Addr, i: nat, chain: seq<Addr>, p: nat, n: Addr)
    requires SortedLevel(h, head, i, chain) && p <= |chain| && Has(h, n, i) && n !in chain && n != head && n != 0
    requires Has(h, Nth(head, chain, p), i) && !EntryAt(h, n).dead
    requires (p > 0 ==> !Row(h, chain)[p - 1].dead) && forall j :: 0 <= j < p ==> Row(h, chain)[j].key < h[n].key
    requires p < |chain| ==> h[n].key < Row(h, chain)[p].key
    ensures var h', more := LinkIn(h, head, i, chain, p, n), Add(chain, p, n);
            SortedLevel(h', head, i, more) && Row(h', more) == With(Row(h, chain), p, EntryAt(h, n))
  {
    var h', more := LinkIn(h, head, i, chain, p, n), Add(chain, p, n);
    LinkInRow(h, head, i, chain, p, n);
    SortedWith(Row(h, chain), p, EntryAt(h, n));
    hide LinkIn, Sorted;
    forall j {:trigger Nth(head, more, j)} | 0 <= j <= |more|
      ensures Has(h', Nth(head, more, j), i) && Has(h', Nth(head, more, j), 0)
      ensures LinkAt(h', Nth(head, more, j), i).ptr == After(more, j)
      ensures LinkAt(h', Nth(head, more, j), i).tag ==> if j == 0 then more == [] else EntryAt(h', more[j - 1]).dead
    {
      LinkInLink(h, head, i, chain, p, n, j);
      if LinkAt(h', Nth(head, more, j), i).tag {
        LinkInMarks(h, head, i, chain, p, n, j);
      }
      assert j > 0 ==> Row(h', more)[j - 1] == With(Row(h, chain), p, EntryAt(h, n))[j - 1];
    }
  }

  lemma LinkInMarks(h: Heap, head: Addr, i: nat, chain: seq<Addr>, p: nat, n: Addr, j: nat)
    requires MarksOk(h, head, i, chain) && p <= |chain| && j <= |chain| + 1 && j != p && j != p + 1
    requires LinkAt(h, Nth(head, Add(chain, p, n), j), i).tag
    ensures j > 0 && With(Row(h, chain), p, EntryAt(h, n))[j - 1].dead
  {
    AddNth(head, chain, p, n, j);
  }

  lemma LinkInRow(h: Heap, head: Addr, i: nat, chain: seq<Addr>, p: nat, n: Addr)
    requires Level(h, head, i, chain) && p <= |chain| && Has(h, n, i) && n !in chain && n != head
    requires Has(h, Nth(head, chain, p), i) && !EntryAt(h, n).dead && (p > 0 ==> !Row(h, chain)[p - 1].dead)
    ensures Row(LinkIn(h, head, i, chain, p, n), Add(chain, p, n)) == With(Row(h, chain), p, EntryAt(h, n))
  {
    var h', more := LinkIn(h, head, i, chain, p, n), Add(chain, p, n);
    forall j | 0 <= j < |more| ensures EntryAt(h', more[j]) == EntryAt(h, more[j]) {
      LinkInEntry(h, head, i, chain, p, n, more[j]);
    }
    assert |Row(h', more)| == |With(Row(h, chain), p, EntryAt(h, n))|;
  }

  /** Other levels stay as they are. */
  lemma LinkInElsewhere(h: Heap, head: Addr, i: nat, chain: seq<Addr>, p: nat, n: Addr, j: nat, level: seq<Addr>)
    requires p <= |chain| && Has(h, Nth(head, chain, p), i) && Has(h, n, i) && n != Nth(head, chain, p)
    requires (p > 0 ==> !EntryAt(h, chain[p - 1]).dead) && !EntryAt(h, n).dead
    requires SortedLevel(h, head, j, level) && j != i
    ensures var h' := LinkIn(h, head, i, chain, p, n);
            SortedLevel(h', head, j, level) && Row(h', level) == Row(h, level)
  {
    var h' := LinkIn(h, head, i, chain, p, n);
    forall k | 0 <= k < |level| ensures EntryAt(h', level[k]) == EntryAt(h, level[k]) {
      LinkInEntry(h, head, i, chain, p, n, level[k]);
    }
    assert Row(h', level) == Row(h, level);
    forall k {:trigger Nth(head, level, k)} | 0 <= k <= |level|
      ensures Has(h', Nth(head, level, k), j) && Has(h', Nth(head, level, k), 0)
      ensures LinkAt(h', Nth(head, level, k), j) == LinkAt(h, Nth(head, level, k), j)
    {
      LinkNth(h, head, j, level, k);
    }
    hide LinkIn;
    SameMarks(h, h', head, j, level);
  }

  // ---------------------------------------------------------------- the walk of one level

  /**
   * How insert's walk of an index level ends: at the place for the key, at a link whose
   * mark makes the loop give up, or at a marked null, which the walk takes for an address.
   */
  datatype Climb = Reaches(p: nat) | Quits | Strays

  function Climbs(es: seq<Entry>, k: int, from: nat): Climb
    requires from <= |es|
    decreases |es| - from
  {
    if from == |es| || es[from].key >= k then Reaches(from)
    else if !es[from].dead then Climbs(es, k, from + 1)
    else if from + 1 < |es| then Quits
    else Strays
  }

  /** The walk strays if and only if the one dead entry on its way is the last of the level, and below the key. */
  lemma {:induction false} StraysExactly(es: seq<Entry>, k: int, from: nat)
    requires Sorted(es) && from <= |es|
    ensures Climbs(es, k, from).Strays? <==>
              && from < |es| && es[|es| - 1].dead && es[|es| - 1].key < k
              && forall j :: from <= j < |es| - 1 ==> !es[j].dead
    decreases |es| - from
  {
    if from < |es| && es[from].key < k && !es[from].dead {
      StraysExactly(es, k, from + 1);
    }
  }

  /** It arrives if and only if no dead entry below the key lies on its way. */
  lemma {:induction false} ReachesExactly(es: seq<Entry>, k: int, from: nat)
    requires Sorted(es) && from <= |es|
    ensures Climbs(es, k, from).Reaches? <==> !DeadBelow(es, k, from)
    decreases |es| - from
  {
    if from < |es| && es[from].key < k && !es[from].dead {
      ReachesExactly(es, k, from + 1);
      assert DeadBelow(es, k, from) <==> DeadBelow(es, k, from + 1);
    }
  }

  /** Where a key belongs on a level, dead entries or not. */
  function Belongs(es: seq<Entry>, k: int): (p: nat)
    ensures p <= |es| && (forall j :: 0 <= j < p ==> es[j].key < k) && (p < |es| ==> es[p].key >= k)
    decreases |es|
  {
    if es == [] || es[0].key >= k then 0 else Belongs(es[1..], k) + 1
  }

  lemma {:induction false} ClimbsToPlace(es: seq<Entry>, k: int, from: nat)
    requires Sorted(es) && from <= |es| && forall j :: 0 <= j < from ==> es[j].key < k
    ensures Climbs(es, k, from).Reaches? ==>
              var p := Climbs(es, k, from).p; from <= p == Belongs(es, k) && (p > from ==> !es[p - 1].dead)
    decreases |es| - from
  {
    if from < |es| && es[from].key < k {
      if !es[from].dead {
        ClimbsToPlace(es, k, from + 1);
      }
    } else {
      assert from <= Belongs(es, k) && (from < |es| ==> Belongs(es, k) <= from);
    }
  }

  /** A dead node's link on the level is marked, as erase leaves it. */
  ghost predicate DeadMarked(h: Heap, i: nat, chain: seq<Addr>) {
    forall j {:trigger chain[j]} :: 0 <= j < |chain| && EntryAt(h, chain[j]).dead ==> LinkAt(h, chain[j], i).tag
  }

  /** The walk along one index level, from the head or a live node, past its marked links or not. */
  method WalkUp(h: Heap, head: Addr, i: nat, ghost chain: seq<Addr>, start: Addr, key: int)
      returns (prev: Addr, cur: Addr, quits: bool, strays: bool)
    requires SortedLevel(h, head, i, chain) && DeadMarked(h, i, chain) && i > 0
    requires (start == head || (start in chain && !EntryAt(h, start).dead)) && !LinkAt(h, start, i).tag
    ensures var end := Climbs(Row(h, chain), key, Place(chain, start));
            && quits == end.Quits? && strays == end.Strays?
            && (end.Reaches? ==> prev == Nth(head, chain, end.p) && cur == After(chain, end.p))
  {
    hide Level, Sorted, MarksOk, Row, SortedLevel, DeadMarked;
    prev, quits, strays := start, false, false;
    ghost var p, es := Place(chain, start), Row(h, chain);
    StartsAt(h, head, i, chain, p);
    var link := h[prev].next[i];
    cur := link.ptr;
    while link.ptr != 0
      invariant p <= |chain| && prev == Nth(head, chain, p) && link.ptr == cur == After(chain, p)
      invariant link.tag ==> p > 0 && p == |chain| && Climbs(es, key, Place(chain, start)).Strays?
      invariant !link.tag ==> Climbs(es, key, p) == Climbs(es, key, Place(chain, start))
      decreases |chain| - p
    {
      StartsAt(h, head, i, chain, p);
      StartsAt(h, head, i, chain, p + 1);
      if h[cur].key >= key {
        return;
      }
      link := h[cur].next[i];
      if MarkedAt(link, i) {
        quits := true;
        return;
      }
      prev, cur := cur, link.ptr;
      p := p + 1;
    }
    StartsAt(h, head, i, chain, p);
    strays := link.tag;
  }

  /** A level at one place: its link, and its next node's entry and mark. */
  lemma StartsAt(h: Heap, head: Addr, i: nat, chain: seq<Addr>, p: nat)
    requires SortedLevel(h, head, i, chain) && DeadMarked(h, i, chain) && p <= |chain|
    ensures Has(h, Nth(head, chain, p), i) && LinkAt(h, Nth(head, chain, p), i).ptr == After(chain, p)
    ensures p < |chain| ==>
              && Has(h, chain[p], i) && Has(h, chain[p], 0) && chain[p] != 0 && Row(h, chain)[p].key == h[chain[p]].key
              && (Row(h, chain)[p].dead <==> h[chain[p]].next[i].tag)
              && h[chain[p]].next[i].ptr == After(chain, p + 1)
  {
    LinkNth(h, head, i, chain, p);
    if p < |chain| {
      LinkNth(h, head, i, chain, p + 1);
      assert Nth(head, chain, p + 1) == chain[p];
    }
  }

  // ---------------------------------------------------------------- the loop

  /** The node from which the loop enters level i: the last one below the key on the level above, or the head. */
  function EnteredFrom(h: Heap, head: Addr, levels: seq<seq<Addr>>, key: int, i: nat): Addr {
    if i + 1 < |levels| then Nth(head, levels[i + 1], Belongs(Row(h, levels[i + 1]), key)) else head
  }

  /** How level i ends: the loop gives up on a marked link of the node it came from, or climbs. */
  function Outcome(h: Heap, head: Addr, levels: seq<seq<Addr>>, key: int, i: nat): Climb
    requires i < |levels|
  {
    var start := EnteredFrom(h, head, levels, key, i);
    if LinkAt(h, start, i).tag then Quits else Climbs(Row(h, levels[i]), key, Place(levels[i], start))
  }

  /** The level, from i down, on which the loop ends (0 if it passes them all), and whether it strays there. */
  function Leaves(h: Heap, head: Addr, levels: seq<seq<Addr>>, key: int, i: nat): (end: (nat, bool))
    requires i < |levels|
    ensures end.0 <= i
  {
    if i == 0 then (0, false)
    else
      match Outcome(h, head, levels, key, i)
      case Reaches(_) => Leaves(h, head, levels, key, i - 1)
      case Quits => (i, false)
      case Strays => (i, true)
  }

  /** It is the first level, from the top down, that is not passed. */
  lemma {:induction false} LeavesExactly(h: Heap, head: Addr, levels: seq<seq<Addr>>, key: int, i: nat, e: nat,
      strays: bool)
    requires i < |levels|
    ensures Leaves(h, head, levels, key, i) == (e, strays) <==>
              && e <= i && (forall j :: e < j <= i ==> Outcome(h, head, levels, key, j).Reaches?)
              && (if e == 0 then !strays
                  else !Outcome(h, head, levels, key, e).Reaches?
                       && strays == Outcome(h, head, levels, key, e).Strays?)
  {
    hide Outcome;
    if i > 0 && Outcome(h, head, levels, key, i).Reaches? {
      LeavesExactly(h, head, levels, key, i - 1, e, strays);
    }
  }

  /** The highest level up to `top` on which the head's link is marked; 0 if none is. */
  function TopMarked(h: Heap, head: Addr, top: nat): (e: nat)
    ensures e <= top && (e > 0 ==> LinkAt(h, head, e).tag)
    ensures forall i :: e < i <= top ==> !LinkAt(h, head, i).tag
  {
    if top == 0 || LinkAt(h, head, top).tag then top else TopMarked(h, head, top - 1)
  }

  /** With no dead node in the index, only the head's marked links end the loop. */
  lemma {:induction false} LeavesAtMark(h: Heap, head: Addr, levels: seq<seq<Addr>>, n: Addr, level: nat, i: nat)
    requires Ready(h, head, levels, n, level) && i < |levels|
    requires forall j :: 0 < j < |levels| ==> NoneDead(Row(h, levels[j]))
    ensures Leaves(h, head, levels, h[n].key, i) == (TopMarked(h, head, i), false)
  {
    if i > 0 {
      OpensUnlessHead(h, head, levels, n, level, i);
      hide Ready, Outcome, NoneDead;
      LeavesAtMark(h, head, levels, n, level, i - 1);
    }
  }

  lemma OpensUnlessHead(h: Heap, head: Addr, levels: seq<seq<Addr>>, n: Addr, level: nat, i: nat)
    requires Ready(h, head, levels, n, level) && 0 < i < |levels|
    requires forall j :: 0 < j < |levels| ==> NoneDead(Row(h, levels[j]))
    ensures Outcome(h, head, levels, h[n].key, i).Reaches? <==> !LinkAt(h, head, i).tag
    ensures !Outcome(h, head, levels, h[n].key, i).Strays?
  {
    var start, key := EnteredFrom(h, head, levels, h[n].key, i), h[n].key;
    var from := Place(levels[i], start);
    EnteredBelow(h, head, levels, n, level, i);
    assert SortedLevel(h, head, i, levels[i]);
    assert Nth(head, levels[i], 0) == head && Nth(head, levels[i], from) == start;
    assert from > 0 ==> !Row(h, levels[i])[from - 1].dead;
    hide Ready, Sorted, Level, EnteredFrom, Climbs;
    ReachesExactly(Row(h, levels[i]), key, from);
  }

  /**
   * The concrete case: 1 is dead and the last node of level 1. The loop that is to index 2
   * takes the mark of 1's null link for an address.
   */
  lemma StraysPastDead()
    ensures var h := map[
                1 := Node(0, 0, 0, [Word(2, false), Word(2, false)]),
                2 := Node(1, 10, 2, [Word(3, true), MARKED_NULL]),
                3 := Node(2, 20, 2, [NULL, MARKED_NULL])];
            var levels := [[2, 3], [2]];
            && Base(h, 1, levels[0]) && Ready(h, 1, levels, 3, 1)
            && Leaves(h, 1, levels, 2, 1) == (1, true)
  {
  }

  /** Level i once insert's loop has got down to `low`: with n, if it is one of n's levels. */
  function Grown(h: Heap, levels: seq<seq<Addr>>, n: Addr, key: int, low: nat, high: nat, i: nat): seq<Addr>
    requires i < |levels|
  {
    if low < i <= high then Add(levels[i], Belongs(Row(h, levels[i]), key), n) else levels[i]
  }

  /** What the loop needs: index levels whose dead nodes erase has marked, n on none of them. */
  ghost predicate Ready(h: Heap, head: Addr, levels: seq<seq<Addr>>, n: Addr, level: nat) {
    && level < |levels| && Nested(levels) && Has(h, n, level) && n != head && n != 0 && !EntryAt(h, n).dead
    && (forall i {:trigger levels[i]} :: 0 < i < |levels| ==>
          && SortedLevel(h, head, i, levels[i]) && DeadMarked(h, i, levels[i]) && n !in levels[i]
          && forall j :: 0 <= j < |levels[i]| ==> Row(h, levels[i])[j].key != h[n].key)
  }

  ghost predicate LevelGrown(h: Heap, g: Heap, head: Addr, levels: seq<seq<Addr>>, n: Addr, level: nat, low: nat,
      i: nat)
    requires n in h && i < |levels|
  {
    SortedLevel(g, head, i, Grown(h, levels, n, h[n].key, low, level, i))
  }

  /** Heap g is h with n linked into its levels above `low`. */
  ghost predicate LinkedAbove(h: Heap, g: Heap, head: Addr, levels: seq<seq<Addr>>, n: Addr, level: nat, low: nat)
    requires n in h
  {
    && g.Keys == h.Keys
    && (forall a :: a in h ==> EntryAt(g, a) == EntryAt(h, a) && g[a].refs == h[a].refs && g[a].key == h[a].key)
    && (forall i :: 0 < i < |levels| ==> LevelGrown(h, g, head, levels, n, level, low, i))
    && (forall a, i: nat {:trigger LinkAt(g, a, i)} :: i <= low || i > level ==> LinkAt(g, a, i) == LinkAt(h, a, i))
    && (forall a, i: nat {:trigger Has(g, a, i)} :: Has(g, a, i) <==> Has(h, a, i))
    && (low >= level ==> g == h)
  }

  /** Linking at level i touches links of level i only. */
  lemma LinkInFrame(h: Heap, head: Addr, i: nat, chain: seq<Addr>, p: nat, n: Addr)
    requires p <= |chain| && Has(h, Nth(head, chain, p), i) && Has(h, n, i) && n != Nth(head, chain, p) && i > 0
    ensures var h' := LinkIn(h, head, i, chain, p, n);
            && h'.Keys == h.Keys
            && (forall a :: a in h ==>
                 EntryAt(h', a) == EntryAt(h, a) && h'[a].refs == h[a].refs && h'[a].key == h[a].key)
            && (forall a, j: nat {:trigger LinkAt(h', a, j)} :: j != i ==> LinkAt(h', a, j) == LinkAt(h, a, j))
            && (forall a, j: nat {:trigger Has(h', a, j)} :: Has(h', a, j) <==> Has(h, a, j))
  {
  }

  /** One level linked. */
  lemma GrowStep(h: Heap, g: Heap, head: Addr, levels: seq<seq<Addr>>, n: Addr, level: nat, i: nat)
    requires Ready(h, head, levels, n, level) && 0 < i <= level && LinkedAbove(h, g, head, levels, n, level, i)
    requires var p := Belongs(Row(h, levels[i]), h[n].key); p > 0 ==> !Row(h, levels[i])[p - 1].dead
    ensures var p := Belongs(Row(h, levels[i]), h[n].key);
            && Has(g, Nth(head, levels[i], p), i) && Has(g, n, i) && n != Nth(head, levels[i], p)
            && LinkedAbove(h, LinkIn(g, head, i, levels[i], p, n), head, levels, n, level, i - 1)
  {
    var chain, p := levels[i], Belongs(Row(h, levels[i]), h[n].key);
    SameLevel(h, g, head, levels, n, level, i);
    LinkNth(g, head, i, chain, p);
    assert Has(h, n, i) && Has(g, n, i) && EntryAt(g, n) == EntryAt(h, n);
    hide Sorted, Level, MarksOk, Distinct, Nested;
    LinkInLevel(g, head, i, chain, p, n);
    LinkInFrame(g, head, i, chain, p, n);
    var g' := LinkIn(g, head, i, chain, p, n);
    var low := i - 1;
    forall j | 0 < j < |levels| ensures LevelGrown(h, g', head, levels, n, level, low, j) {
      assert LevelGrown(h, g, head, levels, n, level, i, j);
      if j != i {
        LinkInElsewhere(g, head, i, chain, p, n, j, Grown(h, levels, n, h[n].key, i, level, j));
      }
    }
  }

  /** Level i as the loop finds it. */
  lemma SameLevel(h: Heap, g: Heap, head: Addr, levels: seq<seq<Addr>>, n: Addr, level: nat, i: nat)
    requires Ready(h, head, levels, n, level) && 0 < i < |levels| && LinkedAbove(h, g, head, levels, n, level, i)
    ensures SortedLevel(g, head, i, levels[i]) && Row(g, levels[i]) == Row(h, levels[i]) && DeadMarked(g, i, levels[i])
    ensures n !in levels[i] && n in g && g[n].key == h[n].key
  {
    forall j | 0 <= j < |levels[i]| ensures EntryAt(g, levels[i][j]) == EntryAt(h, levels[i][j]) {
      LinkNth(h, head, i, levels[i], j);
    }
    assert |Row(g, levels[i])| == |Row(h, levels[i])|;
    assert LevelGrown(h, g, head, levels, n, level, i, i) && levels[i] == Grown(h, levels, n, h[n].key, i, level, i);
  }

  /** The node the loop comes from is on the level it enters, below the key. */
  lemma EnteredBelow(h: Heap, head: Addr, levels: seq<seq<Addr>>, n: Addr, level: nat, i: nat)
    requires Ready(h, head, levels, n, level) && 0 < i < |levels|
    ensures var prev := EnteredFrom(h, head, levels, h[n].key, i);
            && Has(h, prev, i) && (prev == head || prev in levels[i])
            && forall j :: 0 <= j < Place(levels[i], prev) ==> Row(h, levels[i])[j].key < h[n].key
  {
    var prev := EnteredFrom(h, head, levels, h[n].key, i);
    assert i + 1 < |levels| && prev in levels[i + 1] ==> prev in levels[i];
    assert Nth(head, levels[i], 0) == head;
    var from := Place(levels[i], prev);
    LinkNth(h, head, i, levels[i], from);
    if from > 0 {
      assert Row(h, levels[i])[from - 1] == EntryAt(h, prev);
      var p := Belongs(Row(h, levels[i + 1]), h[n].key);
      assert p > 0 && Row(h, levels[i + 1])[p - 1] == EntryAt(h, prev);
    }
  }

  /** The loop's next level is as it was when the loop began. */
  lemma NextLevel(h: Heap, g: Heap, head: Addr, levels: seq<seq<Addr>>, n: Addr, level: nat, i: nat)
    requires Ready(h, head, levels, n, level) && 0 < i < |levels| && LinkedAbove(h, g, head, levels, n, level, i)
    ensures SortedLevel(g, head, i, levels[i]) && DeadMarked(g, i, levels[i]) && Row(g, levels[i]) == Row(h, levels[i])
    ensures var prev := EnteredFrom(h, head, levels, h[n].key, i);
            && Has(g, prev, i) && Has(h, prev, i) && (prev == head || prev in levels[i])
            && EntryAt(g, prev) == EntryAt(h, prev) && LinkAt(g, prev, i) == LinkAt(h, prev, i)
  {
    SameLevel(h, g, head, levels, n, level, i);
    EnteredBelow(h, head, levels, n, level, i);
  }

  /** Where its walk leads, if it arrives, is where n belongs; the node before is live. */
  lemma NextPlace(h: Heap, head: Addr, levels: seq<seq<Addr>>, n: Addr, level: nat, i: nat)
    requires Ready(h, head, levels, n, level) && 0 < i < |levels|
    requires var prev := EnteredFrom(h, head, levels, h[n].key, i); prev == head || !EntryAt(h, prev).dead
    ensures var prev, next := EnteredFrom(h, head, levels, h[n].key, i), EnteredFrom(h, head, levels, h[n].key, i - 1);
            var es := Row(h, levels[i]);
            var end := Climbs(es, h[n].key, Place(levels[i], prev));
            end.Reaches? ==>
              && end.p == Belongs(es, h[n].key) && Nth(head, levels[i], end.p) == next
              && (end.p > 0 ==> !es[end.p - 1].dead) && (next == head || !EntryAt(h, next).dead)
  {
    var key := h[n].key;
    var prev, es := EnteredFrom(h, head, levels, key, i), Row(h, levels[i]);
    var from := Place(levels[i], prev);
    EnteredBelow(h, head, levels, n, level, i);
    assert Sorted(es) && levels[i] == levels[i - 1 + 1];
    assert from > 0 ==> es[from - 1] == EntryAt(h, prev) && prev != head by {
      assert SortedLevel(h, head, i, levels[i]);
    }
    hide Ready, Sorted, Climbs, Belongs;
    ClimbsToPlace(es, key, from);
  }

  /** Above its levels n is not linked, and nothing changes. */
  lemma NotYet(h: Heap, head: Addr, levels: seq<seq<Addr>>, n: Addr, level: nat, low: nat)
    requires Ready(h, head, levels, n, level)
    ensures level < |levels| && n in h && (low >= level ==> LinkedAbove(h, h, head, levels, n, level, low))
    ensures EnteredFrom(h, head, levels, h[n].key, |levels| - 1) == head
  {
  }

  lemma LinkedHigh(h: Heap, g: Heap, head: Addr, levels: seq<seq<Addr>>, n: Addr, level: nat, low: nat)
    requires n in h && low >= level && LinkedAbove(h, g, head, levels, n, level, low)
    ensures g == h
  {
  }

  /** n->next_[i].store(cur), then the compare-exchange of prev's link. */
  method LinkAfter(h: Heap, head: Addr, i: nat, ghost chain: seq<Addr>, ghost p: nat, n: Addr, prev: Addr, cur: Addr)
      returns (h': Heap)
    requires p <= |chain| && Has(h, prev, i) && Has(h, n, i) && n != prev && prev == Nth(head, chain, p)
    requires cur == After(chain, p)
    ensures h' == LinkIn(h, head, i, chain, p, n)
  {
    h' := h[n := h[n].(next := h[n].next[i := Word(cur, false)])];
    h' := h'[prev := h'[prev].(next := h'[prev].next[i := Word(n, false)])];
  }

  /**
   * insert's index loop, from the top level down. It links n at exactly those of its
   * levels that lie above the one on which it ends; the levels it did not reach are the
   * overage. It stops where it strays, since what follows is no node.
   */
  method BuildIndex(h: Heap, head: Addr, top: nat, ghost levels: seq<seq<Addr>>, n: Addr, level: nat)
      returns (h': Heap, over: nat, strays: bool)
    requires Ready(h, head, levels, n, level) && |levels| == top + 1
    ensures var (e, astray) := Leaves(h, head, levels, h[n].key, top);
            && strays == astray && over == (if e < level then e else level)
            && LinkedAbove(h, h', head, levels, n, level, e)
  {
    hide Ready, LinkedAbove, Row, Nth, SortedLevel, DeadMarked, EnteredFrom, Belongs, Climbs, Place;
    NotYet(h, head, levels, n, level, top);
    h', over, strays := h, level, false;
    var prev, i, key := head, top, h[n].key;
    while i > 0
      invariant 0 <= i <= top && !strays && Leaves(h, head, levels, key, i) == Leaves(h, head, levels, key, top)
      invariant LinkedAbove(h, h', head, levels, n, level, i) && over == (if i < level then i else level)
      invariant prev == EnteredFrom(h, head, levels, key, i) && (prev == head || !EntryAt(h, prev).dead)
    {
      NextLevel(h, h', head, levels, n, level, i);
      NextPlace(h, head, levels, n, level, i);
      if Marked0(h'[prev].next[i]) {
        return;
      }
      var cur, quits;
      ghost var p := Belongs(Row(h, levels[i]), key);
      prev, cur, quits, strays := WalkUp(h', head, i, levels[i], prev, key);
      if quits || strays {
        return;
      }
      if i <= level {
        GrowStep(h, h', head, levels, n, level, i);
        h' := LinkAfter(h', head, i, levels[i], p, n, prev, cur);
        over := over - 1;
      } else {
        LinkedHigh(h, h', head, levels, n, level, i);
        NotYet(h, head, levels, n, level, i - 1);
      }
      i := i - 1;
    }
  }
}
