/** The map a list stands for, and how each kind of heap step changes it. */
module ListAbs {
  import opened Words
  import H = HazardPointers
  import opened ListMap
  import opened ListInv
  import opened ListFrame
  import opened ListChange
  import opened ListPublish

  /** The entries: what every live node maps its key to. */
  ghost function Abs(h: Heap, head: Addr): map<int, int>
    requires KeysDiffer(h, head)
    reads {}
  {
    map a | a in h && Live(h, head, a) :: h[a].key := h[a].value
  }

  lemma LiveDiffer(h: Heap, head: Addr, a: Addr, c: Addr)
    requires KeysDiffer(h, head) && Live(h, head, a) && Live(h, head, c) && a != c
    ensures h[a].key != h[c].key
  {
    assert IsLinked(h, a) && IsLinked(h, c);
  }

  lemma AbsAt(h: Heap, head: Addr, a: Addr)
    requires KeysDiffer(h, head) && Live(h, head, a)
    ensures h[a].key in Abs(h, head) && Abs(h, head)[h[a].key] == h[a].value
  {
  }

  lemma AbsFrom(h: Heap, head: Addr, k: int) returns (a: Addr)
    requires KeysDiffer(h, head) && k in Abs(h, head)
    ensures Live(h, head, a) && h[a].key == k && h[a].value == Abs(h, head)[k]
  {
    a :| a in h && Live(h, head, a) && h[a].key == k;
  }

  /** A step that makes no node live and kills none. */
  ghost predicate LiveSame(h: Heap, head: Addr, h': Heap)
    reads {}
  {
    forall a {:trigger Live(h', head, a)} {:trigger Live(h, head, a)} ::
      && (Live(h', head, a) <==> Live(h, head, a))
      && (Live(h, head, a) ==> h'[a].key == h[a].key && h'[a].value == h[a].value)
  }

  lemma AbsSame(h: Heap, head: Addr, h': Heap)
    requires KeysDiffer(h, head) && KeysDiffer(h', head) && LiveSame(h, head, h')
    ensures Abs(h', head) == Abs(h, head)
  {
    hide Abs, KeysDiffer;
    var m, m' := Abs(h, head), Abs(h', head);
    forall k | k in m ensures k in m' && m'[k] == m[k] {
      var a := AbsFrom(h, head, k);
      AbsAt(h', head, a);
    }
    forall k | k in m' ensures k in m {
      var a := AbsFrom(h', head, k);
      AbsAt(h, head, a);
    }
  }

  /** Exactly one node comes to life. */
  ghost predicate LiveMore(h: Heap, head: Addr, n: Addr, h': Heap)
    reads {}
  {
    && !Live(h, head, n) && Live(h', head, n)
    && (forall a {:trigger Live(h', head, a)} {:trigger Live(h, head, a)} :: a != n ==>
          && (Live(h', head, a) <==> Live(h, head, a))
          && (Live(h, head, a) ==> h'[a].key == h[a].key && h'[a].value == h[a].value))
  }

  /** Publishing adds one entry whose key was absent. */
  lemma AbsMore(h: Heap, head: Addr, n: Addr, h': Heap)
    requires KeysDiffer(h, head) && KeysDiffer(h', head) && LiveMore(h, head, n, h')
    ensures h'[n].key !in Abs(h, head)
    ensures Abs(h', head) == Abs(h, head)[h'[n].key := h'[n].value]
  {
    hide Abs, KeysDiffer;
    var m, m', key := Abs(h, head), Abs(h', head), h'[n].key;
    if key in m {
      var a := AbsFrom(h, head, key);
      LiveDiffer(h', head, a, n);
    }
    AbsAt(h', head, n);
    forall k | k in m ensures k in m' && m'[k] == m[k] {
      var a := AbsFrom(h, head, k);
      AbsAt(h', head, a);
    }
    forall k | k in m' && k != key ensures k in m {
      var a := AbsFrom(h', head, k);
      AbsAt(h, head, a);
    }
  }

  lemma TakeBack(m: map<int, int>, k: int, v: int)
    requires k !in m
    ensures m[k := v] - {k} == m
  {
  }

  /** Marking a live node removes one entry whose key was present. */
  lemma AbsLess(h: Heap, head: Addr, n: Addr, h': Heap)
    requires KeysDiffer(h, head) && KeysDiffer(h', head) && LiveMore(h', head, n, h)
    ensures h[n].key in Abs(h, head) && Abs(h, head)[h[n].key] == h[n].value
    ensures Abs(h', head) == Abs(h, head) - {h[n].key}
  {
    assert n in h;
    hide Abs, KeysDiffer, LiveMore;
    AbsMore(h', head, n, h);
    TakeBack(Abs(h', head), h[n].key, h[n].value);
  }
}
