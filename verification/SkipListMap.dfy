/** The map's operations, one at a time, against the sorted finite map they implement. */
module SkipListMaps {
  import opened Words
  import opened SkipListSpec
  import opened SkipList
  import opened SkipListIndex
  import opened SkipListCursor

  // ---------------------------------------------------------------- what a change does to level 0

  /** Marking changes one entry's dead flag and nothing else. */
  lemma MarkBase(h: Heap, head: Addr, chain: seq<Addr>, p: nat, next: seq<Word>)
    requires Base(h, head, chain) && p < |chain| && chain[p] in h
    requires |next| == |h[chain[p]].next| > 0 && next[0] == Mark(h[chain[p]].next[0])
    ensures var h' := h[chain[p] := h[chain[p]].(next := next)];
            Base(h', head, chain) && Row(h', chain) == Killed(Row(h, chain), p)
  {
    var h' := h[chain[p] := h[chain[p]].(next := next)];
    forall j {:trigger Nth(head, chain, j)} | 0 <= j <= |chain|
      ensures Has(h', Nth(head, chain, j), 0) && LinkAt(h', Nth(head, chain, j), 0).ptr == After(chain, j)
    {
      LinkNth(h, head, 0, chain, j);
    }
    assert Row(h', chain) == Killed(Row(h, chain), p);
  }

  /** The index is empty: the head's links above level 0 are the marked nulls mkNode put there. */
  predicate IndexEmpty(h: Heap, head: Addr) {
    head in h && |h[head].next| == MAX_HEIGHT && forall i :: 1 <= i < MAX_HEIGHT ==> h[head].next[i] == MARKED_NULL
  }

  /** The levels of a map whose index is empty. */
  function Levels(chain: seq<Addr>, height: nat): (levels: seq<seq<Addr>>)
    ensures |levels| == height + 1 && levels[0] == chain && NoIndex(levels)
  {
    [chain] + seq(height, _ => [])
  }

  /** Every node of the chain but n is linked once. */
  ghost predicate LinkedOnce(h: Heap, chain: seq<Addr>, n: Addr) {
    forall a :: a in chain && a != n ==> a in h && h[a].refs == 1
  }

  /** A level 0 of nodes linked once under an empty index is a skip list. */
  lemma EmptyIndex(h: Heap, head: Addr, height: nat, chain: seq<Addr>)
    requires Base(h, head, chain) && IndexEmpty(h, head) && height < MAX_HEIGHT && LinkedOnce(h, chain, 0)
    ensures SkipOk(h, head, Levels(chain, height))
  {
    var levels := Levels(chain, height);
    forall a | a in chain ensures RefsOk(h, levels, a) {
      assert Tower(levels, a) == {0};
    }
    forall i {:trigger levels[i]} | 0 <= i < |levels| ensures SortedLevel(h, head, i, levels[i]) {
      if i > 0 {
        EmptyLevel(h, head, i);
      }
    }
  }

  lemma EmptyLevel(h: Heap, head: Addr, i: nat)
    requires IndexEmpty(h, head) && head != 0 && 0 < i < MAX_HEIGHT
    ensures SortedLevel(h, head, i, [])
  {
    assert Nth(head, [], 0) == head;
  }

  lemma TidiedEmpty(h: Heap, head: Addr, height: nat, chain: seq<Addr>, key: int)
    ensures var levels, p := Levels(chain, height), Stop(h, head, Levels(chain, height), 0, key);
            Tidied(h, head, levels, 0, key) == Levels(Trim(h, chain, p), height)
  {
    var levels := Levels(chain, height);
    forall i | 0 < i < |levels| ensures Tidied(h, head, levels, 0, key)[i] == [] {
    }
  }

  /** The list has lost nodes at most, and other nodes are as they were. */
  ghost predicate Undisturbed(h: Heap, h': Heap, head: Addr, chain: seq<Addr>, chain': seq<Addr>) {
    && (forall a :: a in chain' ==> a in chain)
    && (forall a :: a in h && a != head && a !in chain ==> a in h' && h'[a] == h[a])
  }

  // ---------------------------------------------------------------- the class

  class SkipListMap {
    const head: Addr
    var heap: Heap
    var height: nat
    var next: Addr
    var retired: seq<Addr>
    ghost var chain: seq<Addr>

    /**
     * The list is sound, the index is empty, link_count is 1 but for n, which insert is
     * still working on, height_ is in bounds and new addresses are unused.
     */
    ghost predicate Sound(n: Addr)
      reads this
    {
      && Base(heap, head, chain) && IndexEmpty(heap, head) && LinkedOnce(heap, chain, n)
      && height < MAX_HEIGHT && next > 0 && forall a :: a in heap || a in chain ==> a < next
    }

    ghost predicate Valid()
      reads this
    {
      Sound(0)
    }

    ghost function Entries(): seq<Entry>
      reads this
    {
      Row(heap, chain)
    }

    /** The map this object stands for. */
    ghost function Model(): map<int, int>
      reads this
    {
      Contents(Entries())
    }

    constructor ()
      ensures Valid() && Entries() == [] && Model() == map[]
    {
      head := 1;
      heap := map[1 := Node(0, 0, 0, [NULL] + seq(MAX_HEIGHT - 1, _ => MARKED_NULL))];
      height := 0;
      next := 2;
      retired := [];
      chain := [];
    }

    /** find: the traversal, with the unlinking of the dead node it stopped at, if it did. */
    method Find(key: int) returns (prev: Addr, cur: Addr, matched: bool, ghost p: nat)
      requires Valid()
      modifies this`heap, this`chain, this`retired
      ensures Valid() && p == Scan(old(Entries()), key, 0) && prev == Nth(head, chain, p) && p <= |chain|
      ensures Has(heap, prev, 0)
      ensures matched == Match(old(Entries()), key, p)
      ensures var hit := HitsDead(old(Entries()), p);
              && Entries() == (if hit then Without(old(Entries()), p) else old(Entries()))
              && cur == (if hit then 0 else After(chain, p))
              && retired == (if hit then old(retired) + [old(chain)[p]] else old(retired))
              && (!hit ==> chain == old(chain)) && |chain| + |retired| == |old(chain)| + |old(retired)|
      ensures Undisturbed(old(heap), heap, head, old(chain), chain)
    {
      hide SkipOk, SortedLevel, IndexEmpty, LinkedOnce, Found, Row, DeadSkipped, Contents, Undisturbed;
      ghost var h, levels := heap, Levels(chain, height);
      EmptyIndex(heap, head, height, chain);
      var gone;
      heap, prev, cur, matched, gone := Locate(heap, head, height, levels, key);
      p := Stop(h, head, levels, 0, key);
      FoundAlone(h, heap, head, height, chain, key, prev, cur, gone);
      chain := Trim(h, chain, p);
      retired := retired + gone;
    }

    /** find(key, value): a match carries the value; the answer is exact but for dead nodes on the way. */
    method Lookup(key: int) returns (r: Option<int>)
      requires Valid()
      modifies this`heap, this`chain, this`retired
      ensures Valid() && Model() == old(Model())
      ensures r.Some? <==> key in Model() && !DeadBelow(old(Entries()), key, 0)
      ensures r.Some? ==> r.value == Model()[key]
      ensures Entries() == Swept(old(Entries()), key) && |retired| + |chain| == |old(retired)| + |old(chain)|
      ensures NoneDead(old(Entries())) ==> Entries() == old(Entries()) && (r.Some? <==> key in Model())
    {
      hide Contents, Scan;
      ghost var es := Entries();
      var prev, cur, matched, p := Find(key);
      FindKeeps(es, Entries(), key, p);
      if matched {
        LinkNth(heap, head, 0, chain, p);
        r := Some(heap[cur].value);
      } else {
        r := None;
      }
    }

    /** The key belongs right after prev, at p, unless it matched or prev no longer leads to cur. */
    ghost predicate Sought(key: int, prev: Addr, cur: Addr, matched: bool, p: nat)
      reads this
    {
      && p <= |chain| && prev == Nth(head, chain, p) && Has(heap, prev, 0)
      && (forall i :: 0 <= i < p ==> !Entries()[i].dead && Entries()[i].key < key)
      && (!matched && cur == After(chain, p) && p < |chain| ==> key < Entries()[p].key)
    }

    /** find, as insert's loop uses it: the place it returns is right to insert at, unless it had to unlink. */
    method Seek(key: int) returns (prev: Addr, cur: Addr, matched: bool, ghost p: nat)
      requires Valid()
      modifies this`heap, this`chain, this`retired
      ensures Valid() && Model() == old(Model()) && Sought(key, prev, cur, matched, p)
      ensures |chain| <= |old(chain)| && (cur == After(chain, p) || |chain| < |old(chain)|)
      ensures matched ==> key in Model()
      ensures old(retired) <= retired && |retired| + |chain| == |old(retired)| + |old(chain)|
      ensures NoneDead(old(Entries())) ==> NoneDead(Entries())
      ensures Undisturbed(old(heap), heap, head, old(chain), chain)
    {
      hide Contents, Scan, Undisturbed;
      ghost var es, before := Entries(), chain;
      prev, cur, matched, p := Find(key);
      FindKeeps(es, Entries(), key, p);
      assert |Entries()| == |chain| && |es| == |before|;
      if p < |chain| && HitsDead(es, p) {
        LinkNth(heap, head, 0, chain, p);
      }
    }

    /** mkNode: a node for `level + 1` lists, all of them counted, that no list links yet. */
    method NewNode(key: int, value: int, level: nat) returns (n: Addr)
      requires Valid()
      modifies this`heap, this`next
      ensures Valid() && Entries() == old(Entries()) && Private(n, key, value, level)
      ensures n !in old(heap) && heap == old(heap)[n := heap[n]]
    {
      n := next;
      heap := heap[n := Node(key, value, level + 1, [NULL] + seq(level, _ => MARKED_NULL))];
      next := next + 1;
      Unrelated(old(heap), heap, head, chain, n);
    }

    /** n is a node insert has made and not linked. */
    ghost predicate Private(n: Addr, key: int, value: int, level: nat)
      reads this
    {
      && Has(heap, n, level) && n != 0 && n != head && n !in chain
      && heap[n].key == key && heap[n].value == value && heap[n].refs == level + 1 && !heap[n].next[0].tag
    }

    /** n is linked on level 0, with all its levels counted. */
    ghost predicate Counted(n: Addr, level: nat)
      reads this
    {
      Sound(n) && n in chain && Has(heap, n, level) && heap[n].refs == level + 1 && !EntryAt(heap, n).dead
    }

    /** Store cur in n's link and, if prev still leads to cur, link n after prev. */
    method TryLink(prev: Addr, cur: Addr, ghost p: nat, n: Addr, ghost key: int, ghost value: int, ghost level: nat)
        returns (ok: bool)
      requires Valid() && Private(n, key, value, level) && Sought(key, prev, cur, false, p)
      modifies this`heap, this`chain
      ensures ok == (cur == old(After(chain, p))) && |chain| == |old(chain)| + if ok then 1 else 0
      ensures if ok then Counted(n, level) && Entries() == With(old(Entries()), p, Entry(key, value, false))
              else Valid() && Entries() == old(Entries()) && Private(n, key, value, level) && chain == old(chain)
    {
      LinkNth(heap, head, 0, chain, p);
      ghost var h, es := heap, Entries();
      assert !heap[prev].next[0].tag by { LiveLink(heap, head, chain, p); }
      heap := heap[n := heap[n].(next := heap[n].next[0 := Word(cur, false)])];
      Unrelated(h, heap, head, chain, n);
      ok := heap[prev].next[0] == Word(cur, false);
      if ok {
        LinkBase(heap, head, chain, p, n);
        heap := heap[prev := heap[prev].(next := heap[prev].next[0 := Word(n, false)])];
        chain := Add(chain, p, n);
      }
    }

    /** The index loop, and the overage it leaves: nothing is linked, so all but one reference goes. */
    method Finish(n: Addr, level: nat)
      requires Counted(n, level) && level <= height
      modifies this`heap, this`retired
      ensures Valid() && Entries() == old(Entries()) && retired == old(retired)
    {
      ghost var h := heap;
      NothingLinked(heap, head, height, chain, n, level);
      var over, strays;
      heap, over, strays := BuildIndex(heap, head, height, Levels(chain, height), n, level);
      assert heap == h && over == level && !strays;
      if over > 0 {
        var left := heap[n].refs - over;
        heap := heap[n := heap[n].(refs := left)];
        retired := if left == 0 then retired + [n] else retired;
      }
      CountedOnce(h, heap, head, chain, n);
    }

    /**
     * insert, with the level randomLevel drew. It is exact whatever is dead: the CAS
     * that links expects the link find saw, so a find that unlinked is repeated.
     */
    method Insert(key: int, value: int, drawn: nat) returns (ok: bool)
      requires Valid() && drawn < MAX_HEIGHT
      modifies this
      ensures Valid() && ok == (key !in old(Model()))
      ensures Model() == if ok then old(Model())[key := value] else old(Model())
      ensures height == if drawn > old(height) then old(height) + 1 else old(height)
      ensures |retired| + |chain| == |old(retired)| + |old(chain)| + if ok then 1 else 0
      ensures NoneDead(old(Entries())) ==> NoneDead(Entries())
    {
      hide Contents, Base, IndexEmpty, LinkedOnce, Sorted, With;
      var level := drawn;
      if level > height {
        height := height + 1;
        level := height;
      }
      ghost var es := Entries();
      var prev, cur, matched;
      ghost var p: nat;
      prev, cur, matched, p := Seek(key);
      if matched {
        return false;
      }
      var n := NewNode(key, value, level);
      while !matched
        invariant Valid() && Model() == old(Model()) && (matched ==> key in Model()) && Private(n, key, value, level)
        invariant height == (if drawn > old(height) then old(height) + 1 else old(height)) && level <= height
        invariant |retired| + |chain| == |old(retired)| + |old(chain)|
        invariant NoneDead(es) ==> NoneDead(Entries())
        invariant Sought(key, prev, cur, matched, p)
        decreases 2 * |chain| + if cur == After(chain, p) then 0 else 1
      {
        ghost var before := Entries();
        ok := TryLink(prev, cur, p, n, key, value, level);
        if ok {
          SoundRow(heap, head, chain);
          InsertedRow(before, Entries(), p, key, value);
          Finish(n, level);
          return;
        }
        prev, cur, matched, p := Seek(key);
      }
      Unrelated(heap, heap - {n}, head, chain, n);
      heap := heap - {n};
      ok := false;
    }

    /**
     * erase: true exactly when the key is in the map and no dead node lies before it;
     * then the key is gone and so is the node.
     */
    method Erase(key: int) returns (ok: bool)
      requires Valid()
      modifies this`heap, this`chain, this`retired
      ensures Valid() && ok == (key in old(Model()) && !DeadBelow(old(Entries()), key, 0))
      ensures Model() == if ok then old(Model()) - {key} else old(Model())
      ensures ok ==>
                var p := Scan(old(Entries()), key, 0);
                && p < |old(Entries())| && old(Entries())[p].key == key && Entries() == Without(old(Entries()), p)
                && retired == old(retired) + [old(chain)[p]]
      ensures !ok ==> Entries() == Swept(old(Entries()), key) && |retired| + |chain| == |old(retired)| + |old(chain)|
      ensures NoneDead(old(Entries())) ==> NoneDead(Entries()) && ok == (key in old(Model()))
    {
      hide Contents, Scan, Base, IndexEmpty, LinkedOnce, Undisturbed, Without, Killed, NoneDead;
      ghost var es := Entries();
      SoundRow(heap, head, chain);
      var prev, cur, matched, p := Find(key);
      FindKeeps(es, Entries(), key, p);
      if !matched {
        return false;
      }
      FoundNode(heap, head, chain, p);
      MarkAll(cur, p);
      KillContents(es, p);
      ghost var marked := Entries();
      ghost var q;
      SoundRow(heap, head, chain);
      prev, cur, matched, q := Find(key);
      FindKeeps(marked, Entries(), key, q);
      DeadIsNext(es, marked, key, p, q);
      ok := true;
    }

    /** Mark every link of a node, from the top of its tower down. */
    method MarkAll(cur: Addr, ghost p: nat)
      requires Valid() && p < |chain| && chain[p] == cur && Has(heap, cur, 0) && cur != head
      modifies this`heap
      ensures Valid() && Entries() == Killed(old(Entries()), p)
    {
      var words := heap[cur].next;
      var i := |words|;
      while i > 0
        invariant 0 <= i <= |words| == |heap[cur].next|
        invariant forall j :: 0 <= j < i ==> words[j] == heap[cur].next[j]
        invariant i == 0 ==> words[0] == Mark(heap[cur].next[0])
      {
        i := i - 1;
        words := words[i := Mark(words[i])];
      }
      MarkBase(heap, head, chain, p, words);
      heap := heap[cur := heap[cur].(next := words)];
    }

    /**
     * firstKey: the first node's key, dead or not; 0 stands for Key() when there is none.
     * It is a key of the map, and then the least, if and only if that node is not dead.
     */
    method FirstKey() returns (key: int)
      requires Valid()
      ensures if Entries() == [] then key == 0 else key == Entries()[0].key
      ensures Entries() != [] ==> (key in Model() <==> !Entries()[0].dead)
      ensures key in Model() && Entries() != [] ==> forall k :: k in Model() ==> key <= k
    {
      hide Contents;
      LinkNth(heap, head, 0, chain, 0);
      assert Nth(head, chain, 0) == head;
      var cur := heap[head].next[0].ptr;
      key := if cur != 0 then heap[cur].key else 0;
      if chain != [] {
        FirstIsLeast(Entries());
      }
    }

    /**
     * entries, watched for `limit` turns of its loops: it is done by then, and has the
     * whole map in key order, if no node is dead; if one is, it is never done.
     */
    method List(limit: nat) returns (done: bool, pairs: seq<(int, int)>)
      requires Valid()
      ensures done <==> NoneDead(Entries()) && limit > 2 * |Entries()|
      ensures done ==> pairs == Pairs(Entries())
      ensures done ==> forall i, j :: 0 <= i < j < |pairs| ==> pairs[i].0 < pairs[j].0
      ensures done ==> forall k, v :: (k, v) in pairs <==> k in Model() && Model()[k] == v
    {
      var c := Restart(heap, head, []);
      var n := 0;
      while n < limit && !c.Done?
        invariant n <= limit && c == Steps(heap, head, n)
      {
        c := Step(heap, head, c);
        n := n + 1;
      }
      done, pairs := c.Done?, c.got;
      hide Step, Contents;
      EndsIffNoneDead(heap, head, chain);
      if NoneDead(Entries()) {
        if !done && limit > 2 * |Entries()| {
          DoneStays(heap, head, 2 * |chain| + 1, limit);
        }
        PairsAre(Entries(), Pairs(Entries()));
      }
    }
  }

  /** What find leaves where there is no index. */
  lemma FoundAlone(
      h: Heap, h': Heap, head: Addr, height: nat, chain: seq<Addr>, key: int, prev: Addr, cur: Addr, gone: seq<Addr>)
    requires Base(h, head, chain) && IndexEmpty(h, head) && height < MAX_HEIGHT && LinkedOnce(h, chain, 0)
    requires Found(h, h', head, Levels(chain, height), key, prev, cur, gone)
    ensures var p, es := Stop(h, head, Levels(chain, height), 0, key), Row(h, chain);
            var rest := Trim(h, chain, p);
            && Base(h', head, rest) && IndexEmpty(h', head) && LinkedOnce(h', rest, 0) && h'.Keys <= h.Keys
            && prev == Nth(head, rest, p) && p <= |rest| && Has(h', prev, 0)
            && Row(h', rest) == (if HitsDead(es, p) then Without(es, p) else es)
            && cur == (if HitsDead(es, p) then 0 else After(rest, p))
            && gone == (if HitsDead(es, p) then [chain[p]] else [])
            && Undisturbed(h, h', head, chain, rest)
  {
    var levels, p := Levels(chain, height), Stop(h, head, Levels(chain, height), 0, key);
    TidiedEmpty(h, head, height, chain, key);
    LinkNth(h, head, 0, chain, p);
    SkipAlone(h', head, height, Trim(h, chain, p));
    StillEmpty(h, head, chain, p);
    hide Stop, SkipOk, Sorted, Tidied, MarksOk, LinkedOnce, EntryAt, LinkAt, Unlinked, IndexEmpty, Distinct;
    LinkNth(h', head, 0, Trim(h, chain, p), p);
    if HitsDead(Row(h, chain), p) {
      DropNth(head, chain, p, p);
    }
  }

  lemma SkipAlone(h: Heap, head: Addr, height: nat, chain: seq<Addr>)
    requires SkipOk(h, head, Levels(chain, height))
    ensures Base(h, head, chain) && LinkedOnce(h, chain, 0)
  {
    var levels := Levels(chain, height);
    forall a | a in chain ensures a in h && h[a].refs == 1 {
      assert a in levels[0] && RefsOk(h, levels, a) && Tower(levels, a) == {0};
    }
  }

  lemma StillEmpty(h: Heap, head: Addr, chain: seq<Addr>, p: nat)
    requires Base(h, head, chain) && IndexEmpty(h, head)
    ensures var h' := Unlinked(h, head, chain, p);
            IndexEmpty(h', head) && h'.Keys <= h.Keys && Undisturbed(h, h', head, chain, Trim(h, chain, p))
  {
  }

  lemma SoundRow(h: Heap, head: Addr, chain: seq<Addr>)
    requires Base(h, head, chain)
    ensures Sorted(Row(h, chain))
  {
  }

  lemma SortedRest(es: seq<Entry>, p: nat, e: Entry)
    requires p <= |es| && Sorted(With(es, p, e))
    ensures Sorted(es)
  {
    var fs := With(es, p, e);
    forall i, j | 0 <= i < j < |es| ensures es[i].key < es[j].key {
      assert es[i] == fs[if i < p then i else i + 1] && es[j] == fs[if j < p then j else j + 1];
    }
  }

  lemma InsertedRow(es: seq<Entry>, fs: seq<Entry>, p: nat, key: int, value: int)
    requires p <= |es| && fs == With(es, p, Entry(key, value, false)) && Sorted(fs)
    requires forall i :: 0 <= i < p ==> es[i].key < key
    requires p < |es| ==> key < es[p].key
    ensures key !in Contents(es) && Contents(fs) == Contents(es)[key := value]
    ensures NoneDead(es) ==> NoneDead(fs)
  {
    SortedRest(es, p, Entry(key, value, false));
    assert NoneDead(es) ==> NoneDead(fs);
    hide Sorted, NoneDead, With, Contents;
    InsertContents(es, p, key, value);
  }

  /** What a find for key leaves behind and what its answer means. */
  lemma FindKeeps(es: seq<Entry>, fs: seq<Entry>, key: int, p: nat)
    requires Sorted(es) && p == Scan(es, key, 0)
    requires fs == if HitsDead(es, p) then Without(es, p) else es
    ensures Sorted(fs) && Contents(fs) == Contents(es) && p <= |fs|
    ensures Match(es, key, p) <==> key in Contents(es) && !DeadBelow(es, key, 0)
    ensures Match(es, key, p) ==> fs == es && Contents(es)[key] == es[p].value
    ensures forall i :: 0 <= i < p ==> !fs[i].dead && fs[i].key < key
    ensures !HitsDead(es, p) && !Match(es, key, p) && p < |fs| ==> key < fs[p].key
    ensures NoneDead(es) ==> fs == es && !DeadBelow(es, key, 0)
  {
    MatchExactly(es, key);
    ContentsHas(es, key);
    if HitsDead(es, p) {
      UnlinkKeeps(es, p);
    }
    if Match(es, key, p) {
      assert es[p] == Entry(key, es[p].value, false);
    }
  }

  lemma LiveLink(h: Heap, head: Addr, chain: seq<Addr>, p: nat)
    requires Base(h, head, chain) && p <= |chain| && (p > 0 ==> !Row(h, chain)[p - 1].dead)
    ensures Has(h, Nth(head, chain, p), 0) && !h[Nth(head, chain, p)].next[0].tag
  {
    LinkNth(h, head, 0, chain, p);
  }

  /** A node no list links makes no difference to the list. */
  lemma Unrelated(h: Heap, h': Heap, head: Addr, chain: seq<Addr>, n: Addr)
    requires Base(h, head, chain) && IndexEmpty(h, head) && LinkedOnce(h, chain, 0) && n != head && n !in chain
    requires h - {n} == h' - {n}
    ensures Base(h', head, chain) && IndexEmpty(h', head) && LinkedOnce(h', chain, 0) && Row(h', chain) == Row(h, chain)
  {
    forall a | a in h && a != n ensures a in h' && h'[a] == h[a] {
      assert a in h - {n} && (h - {n})[a] == (h' - {n})[a];
    }
    forall j {:trigger Nth(head, chain, j)} | 0 <= j <= |chain|
      ensures Nth(head, chain, j) != n && Has(h, Nth(head, chain, j), 0)
    {
      LinkNth(h, head, 0, chain, j);
    }
    assert Row(h', chain) == Row(h, chain);
  }

  lemma LinkBase(h: Heap, head: Addr, chain: seq<Addr>, p: nat, n: Addr)
    requires Base(h, head, chain) && IndexEmpty(h, head) && LinkedOnce(h, chain, 0) && p <= |chain|
    requires n != 0 && n !in chain && n != head && Has(h, n, 0) && h[n].next[0] == Word(After(chain, p), false)
    requires forall i :: 0 <= i < p ==> !Row(h, chain)[i].dead && Row(h, chain)[i].key < h[n].key
    requires p < |chain| ==> h[n].key < Row(h, chain)[p].key
    requires Has(h, Nth(head, chain, p), 0)
    ensures var prev := Nth(head, chain, p);
            var h' := h[prev := h[prev].(next := h[prev].next[0 := Word(n, false)])];
            && Base(h', head, Add(chain, p, n)) && IndexEmpty(h', head) && LinkedOnce(h', Add(chain, p, n), n)
            && Row(h', Add(chain, p, n)) == With(Row(h, chain), p, Entry(h[n].key, h[n].value, false))
            && n in Add(chain, p, n)
  {
    LinkInLevel(h, head, 0, chain, p, n);
    assert h[n].next[0 := Word(After(chain, p), false)] == h[n].next;
    assert h[n := h[n]] == h;
    hide SortedLevel, Sorted;
    assert Add(chain, p, n)[p] == n;
  }

  /** With every index link of the head marked, the index loop links nothing. */
  lemma NothingLinked(h: Heap, head: Addr, height: nat, chain: seq<Addr>, n: Addr, level: nat)
    requires Base(h, head, chain) && IndexEmpty(h, head) && height < MAX_HEIGHT && level <= height
    requires n in chain && Has(h, n, level) && !EntryAt(h, n).dead
    ensures Ready(h, head, Levels(chain, height), n, level)
    ensures Leaves(h, head, Levels(chain, height), h[n].key, height) == (height, false)
    ensures forall g :: LinkedAbove(h, g, head, Levels(chain, height), n, level, height) ==> g == h
  {
    forall i | 0 < i <= height ensures SortedLevel(h, head, i, []) {
      EmptyLevel(h, head, i);
    }
    LeavesAtMark(h, head, Levels(chain, height), n, level, height);
  }

  lemma CountedOnce(h: Heap, h': Heap, head: Addr, chain: seq<Addr>, n: Addr)
    requires Base(h, head, chain) && IndexEmpty(h, head) && LinkedOnce(h, chain, n) && n in chain && n in h
    requires h' == h[n := h[n].(refs := 1)]
    ensures Base(h', head, chain) && IndexEmpty(h', head) && LinkedOnce(h', chain, 0) && Row(h', chain) == Row(h, chain)
  {
    assert Row(h', chain) == Row(h, chain);
    forall j {:trigger Nth(head, chain, j)} | 0 <= j <= |chain|
      ensures Has(h', Nth(head, chain, j), 0) && LinkAt(h', Nth(head, chain, j), 0) == LinkAt(h, Nth(head, chain, j), 0)
    {
      LinkNth(h, head, 0, chain, j);
    }
  }

  lemma FoundNode(h: Heap, head: Addr, chain: seq<Addr>, p: nat)
    requires Base(h, head, chain) && p < |chain|
    ensures Has(h, chain[p], 0) && chain[p] != head && chain[p] != 0
  {
    LinkNth(h, head, 0, chain, p);
    LinkNth(h, head, 0, chain, p + 1);
  }

  /** erase's second find stops at the node just marked: nothing before it is dead. */
  lemma DeadIsNext(es: seq<Entry>, marked: seq<Entry>, key: int, p: nat, q: nat)
    requires Sorted(es) && p == Scan(es, key, 0) && Match(es, key, p)
    requires p < |es| && marked == Killed(es, p) && q == Scan(marked, key, 0)
    ensures q == p && HitsDead(marked, q) && Without(marked, q) == Without(es, p)
    ensures NoneDead(es) ==> NoneDead(Without(es, p))
  {
    assert forall i :: 0 <= i < p ==> marked[i] == es[i];
    assert marked[p].dead;
  }

  /** The first entry's key is in the map if and only if the entry is live, and then it is the least. */
  lemma FirstIsLeast(es: seq<Entry>)
    requires Sorted(es) && es != []
    ensures es[0].key in Contents(es) <==> !es[0].dead
    ensures !es[0].dead ==> forall k :: k in Contents(es) ==> es[0].key <= k
  {
    ContentsHas(es, es[0].key);
    assert es[0] == Entry(es[0].key, es[0].value, es[0].dead);
    if es[0].key in Contents(es) {
      assert Entry(es[0].key, Contents(es)[es[0].key], false) in es;
    }
    forall k | k in Contents(es) ensures es[0].key <= k {
      ContentsHas(es, k);
      assert Entry(k, Contents(es)[k], false) in es;
    }
  }

  /** The concrete case: 1 is first in the list, and not in the map. */
  lemma DeadKeyIsFirst()
    ensures var es := [Entry(1, 10, true), Entry(2, 20, false)];
            Sorted(es) && 2 in Contents(es) && es[0].key !in Contents(es)
  {
    var es := [Entry(1, 10, true), Entry(2, 20, false)];
    FirstIsLeast(es);
    ContentsHas(es, 2);
    assert es[1] == Entry(2, 20, false);
  }

  lemma PairsAre(es: seq<Entry>, pairs: seq<(int, int)>)
    requires Sorted(es) && NoneDead(es) && |pairs| == |es|
    requires forall i :: 0 <= i < |es| ==> pairs[i] == (es[i].key, es[i].value)
    ensures forall k, v :: (k, v) in pairs <==> k in Contents(es) && Contents(es)[k] == v
    ensures forall i, j :: 0 <= i < j < |pairs| ==> pairs[i].0 < pairs[j].0
  {
    forall k, v ensures (k, v) in pairs <==> k in Contents(es) && Contents(es)[k] == v {
      ContentsHas(es, k);
      if i :| 0 <= i < |pairs| && pairs[i] == (k, v) {
        assert es[i] == Entry(k, v, false);
      }
      if i :| 0 <= i < |es| && es[i] == Entry(k, v, false) {
        assert pairs[i] == (k, v);
      }
    }
  }
}
