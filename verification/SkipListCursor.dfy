/** extractor's walk over level 0, and exactly when it comes to an end. */
module SkipListCursor {
  import opened Words
  import opened SkipListSpec
  import opened SkipList

  /** Where extractor is; `got` is what it has pushed so far. */
  datatype Cursor =
    | Fetch(prev: Addr, cur: Addr, got: seq<(int, int)>)             // the head of the outer loop
    | Check(prev: Addr, cur: Addr, next: Word, got: seq<(int, int)>) // while (marked0(next))
    | Done(got: seq<(int, int)>)

  function Restart(h: Heap, head: Addr, got: seq<(int, int)>): Cursor {
    Fetch(head, LinkAt(h, head, 0).ptr, got)
  }

  /** One turn of the outer loop or of the loop that reloads cur from prev. */
  function Step(h: Heap, head: Addr, c: Cursor): Cursor {
    match c
    case Done(_) => c
    case Fetch(prev, cur, got) =>
      if cur == 0 then Done(got)
      else Check(prev, cur, LinkAt(h, cur, 0), got + [(EntryAt(h, cur).key, EntryAt(h, cur).value)])
    case Check(prev, cur, next, got) =>
      if !Marked0(next) then Fetch(cur, next.ptr, got)
      else
        var link := LinkAt(h, prev, 0);
        if Marked0(link) then Restart(h, head, got)
        else if link.ptr != 0 then Check(prev, link.ptr, LinkAt(h, link.ptr, 0), got)
        else Check(prev, 0, NULL, got)
  }

  function Steps(h: Heap, head: Addr, n: nat): Cursor {
    if n == 0 then Restart(h, head, []) else Step(h, head, Steps(h, head, n - 1))
  }

  function Pairs(es: seq<Entry>): (r: seq<(int, int)>)
    ensures |r| == |es| && forall i :: 0 <= i < |es| ==> r[i] == (es[i].key, es[i].value)
  {
    seq(|es|, i requires 0 <= i < |es| => (es[i].key, es[i].value))
  }

  /** Past i live entries the cursor has pushed exactly those. */
  lemma {:induction false} StepsLive(h: Heap, head: Addr, chain: seq<Addr>, i: nat)
    requires Base(h, head, chain) && i <= |chain| && NoneDead(Row(h, chain)[..i])
    ensures Steps(h, head, 2 * i) == Fetch(Nth(head, chain, i), After(chain, i), Pairs(Row(h, chain)[..i]))
  {
    var es := Row(h, chain);
    if i == 0 {
      assert Nth(head, chain, 0) == head;
      LinkNth(h, head, 0, chain, 0);
    } else {
      assert NoneDead(es[..i - 1]) && !es[..i][i - 1].dead;
      StepsLive(h, head, chain, i - 1);
      LinkNth(h, head, 0, chain, i - 1);
      LinkNth(h, head, 0, chain, i);
      assert Pairs(es[..i]) == Pairs(es[..i - 1]) + [(es[i - 1].key, es[i - 1].value)];
      assert Steps(h, head, 2 * i - 1) == Step(h, head, Steps(h, head, 2 * i - 2));
    }
  }

  /** At the first dead entry it reloads the same node from the same live predecessor, and stays. */
  lemma {:induction false} StepsSpin(h: Heap, head: Addr, chain: seq<Addr>, i: nat, m: nat)
    requires Base(h, head, chain) && i < |chain| && NoneDead(Row(h, chain)[..i]) && Row(h, chain)[i].dead
    ensures var c := Steps(h, head, 2 * i + 1 + m);
            c.Check? && c.prev == Nth(head, chain, i) && c.cur == chain[i] && c.next.tag
                && c.got == Pairs(Row(h, chain)[..i + 1])
  {
    var es := Row(h, chain);
    LinkNth(h, head, 0, chain, i);
    if m == 0 {
      StepsLive(h, head, chain, i);
      assert Pairs(es[..i + 1]) == Pairs(es[..i]) + [(es[i].key, es[i].value)];
    } else {
      StepsSpin(h, head, chain, i, m - 1);
      assert i > 0 ==> !es[..i][i - 1].dead;
      assert !LinkAt(h, Nth(head, chain, i), 0).tag;
    }
  }

  lemma {:induction false} DoneStays(h: Heap, head: Addr, n: nat, m: nat)
    requires n <= m && Steps(h, head, n).Done?
    ensures Steps(h, head, m) == Steps(h, head, n)
    decreases m
  {
    if n < m {
      DoneStays(h, head, n, m - 1);
    }
  }

  /** The first dead entry, or the end. */
  function FirstDead(es: seq<Entry>): (i: nat)
    ensures i <= |es| && NoneDead(es[..i]) && (i < |es| ==> es[i].dead) && (NoneDead(es) <==> i == |es|)
    decreases |es|
  {
    if es == [] then 0
    else
      var i := FirstDead(es[..|es| - 1]);
      assert es[..|es| - 1][..i] == es[..i];
      if i < |es| - 1 then assert es[..|es| - 1][i] == es[i]; i
      else if es[i].dead then i else assert es[..i + 1] == es; i + 1
  }

  /**
   * On a quiescent list extractor comes to an end if and only if no node is dead, and
   * then it has pushed every entry. With a dead node it reloads that node for ever.
   */
  lemma EndsIffNoneDead(h: Heap, head: Addr, chain: seq<Addr>)
    requires Base(h, head, chain)
    ensures (exists n: nat :: Steps(h, head, n).Done?) <==> NoneDead(Row(h, chain))
    ensures forall n: nat :: Steps(h, head, n).Done? ==>
              n > 2 * |chain| && Steps(h, head, n).got == Pairs(Row(h, chain))
    ensures NoneDead(Row(h, chain)) ==> Steps(h, head, 2 * |chain| + 1).Done?
  {
    var es := Row(h, chain);
    var i := FirstDead(es);
    if NoneDead(es) {
      assert es[..i] == es;
      StepsLive(h, head, chain, i);
      assert Steps(h, head, 2 * |chain| + 1) == Done(Pairs(es));
    }
    forall n: nat | Steps(h, head, n).Done?
      ensures NoneDead(es) && n > 2 * |chain| && Steps(h, head, n).got == Pairs(es)
    {
      if i < |es| {
        StepsSpin(h, head, chain, i, n);
        DoneStays(h, head, n, 2 * i + 1 + n);
        assert false;
      } else if n <= 2 * |chain| {
        DoneStays(h, head, n, 2 * |chain|);
        assert false;
      } else {
        DoneStays(h, head, 2 * |chain| + 1, n);
      }
    }
  }

  /** The concrete case: one node, marked and not yet unlinked. */
  lemma DeadNodeTrapsExtractor(n: nat)
    ensures var h: Heap := map[1 := Node(0, 0, 0, [Word(2, false)]), 2 := Node(1, 10, 1, [MARKED_NULL])];
            Base(h, 1, [2]) && Row(h, [2]) == [Entry(1, 10, true)] && !Steps(h, 1, n).Done?
  {
    var h: Heap := map[1 := Node(0, 0, 0, [Word(2, false)]), 2 := Node(1, 10, 1, [MARKED_NULL])];
    assert Nth(1, [2], 0) == 1 && Nth(1, [2], 1) == 2;
    assert Row(h, [2])[0].dead;
    EndsIffNoneDead(h, 1, [2]);
  }
}
