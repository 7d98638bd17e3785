/**
 * The thread-local multiplexer: ids handed out from a counter and a free list, a
 * growable array of values for each thread, and a circular doubly linked registry of
 * the threads that have one. Operations run one at a time, under the source's mutex or
 * on their own thread's array.
 */
module ThreadLocals {

  /** A stored pointer (0 is null) and the function that deletes it. */
  datatype Element = Element(ptr: nat, deleter: nat)

  const EMPTY := Element(0, 0)

  function One(e: Element): multiset<Element> {
    if e.ptr == 0 then multiset{} else multiset{e}
  }

  /** The stored values: what a deleter is still to be run on. */
  function Held(es: seq<Element>): multiset<Element> {
    if es == [] then multiset{} else Held(es[..|es| - 1]) + One(es[|es| - 1])
  }

  lemma Swap(a: multiset<Element>, b: multiset<Element>, c: multiset<Element>, d: multiset<Element>,
      x: multiset<Element>)
    requires a + b == c + d
    ensures (a + x) + b == (c + x) + d
  {
    assert (a + x) + b == (a + b) + x;
    assert (c + x) + d == (c + d) + x;
  }

  lemma {:induction false} HeldPut(es: seq<Element>, i: nat, e: Element)
    requires i < |es|
    ensures Held(es[i := e]) + One(es[i]) == Held(es) + One(e)
  {
    hide One;
    var n := |es| - 1;
    if i == n {
      assert es[i := e][..n] == es[..n];
      Swap(Held(es[..n]), multiset{}, Held(es[..n]), multiset{}, One(es[i]));
    } else {
      assert es[i := e][..n] == es[..n][i := e];
      HeldPut(es[..n], i, e);
      Swap(Held(es[..n][i := e]), One(es[i]), Held(es[..n]), One(e), One(es[n]));
    }
  }

  lemma {:induction false} HeldEmpty(es: seq<Element>)
    requires forall i :: 0 <= i < |es| ==> es[i].ptr == 0
    ensures Held(es) == multiset{}
  {
    if es != [] {
      HeldEmpty(es[..|es| - 1]);
    }
  }

  lemma {:induction false} HeldPad(es: seq<Element>, more: seq<Element>)
    requires forall i :: 0 <= i < |more| ==> more[i].ptr == 0
    ensures Held(es + more) == Held(es)
  {
    if more == [] {
      assert es + more == es;
    } else {
      var n := |more| - 1;
      assert (es + more)[..|es| + n] == es + more[..n];
      HeldPad(es, more[..n]);
    }
  }

  /** The value under an id in one thread's array; absent counts as empty. */
  function At(es: seq<Element>, id: nat): Element {
    if 1 <= id <= |es| then es[id - 1] else EMPTY
  }

  /** Filling an empty place. */
  lemma PutAt(es: seq<Element>, id: nat, e: Element)
    requires 1 <= id <= |es| && es[id - 1].ptr == 0
    ensures var es' := es[id - 1 := e];
            At(es', id) == e && (forall j :: j != id ==> At(es', j) == At(es, j)) && Held(es') == Held(es) + One(e)
  {
    HeldPut(es, id - 1, e);
  }

  /** Emptying a place. */
  lemma TakeAt(es: seq<Element>, id: nat)
    requires 1 <= id <= |es|
    ensures Held(es[id - 1 := EMPTY]) + One(es[id - 1]) == Held(es)
  {
    HeldPut(es, id - 1, EMPTY);
  }

  /** resize: 1 + floor(1.5 * size) places. */
  function Grown(es: seq<Element>, size: nat): (r: seq<Element>)
    requires size > |es|
    ensures |r| == 1 + 3 * size / 2 && |r| > size
    ensures forall id :: At(r, id) == At(es, id)
  {
    es + seq(1 + 3 * size / 2 - |es|, _ => EMPTY)
  }

  lemma GrownHeld(es: seq<Element>, size: nat)
    requires size > |es|
    ensures Held(Grown(es, size)) == Held(es)
  {
    HeldPad(es, seq(1 + 3 * size / 2 - |es|, _ => EMPTY));
  }

  class ThreadStorage {
    var elements: seq<Element>
    var next: ThreadStorage?
    var prev: ThreadStorage?

    constructor ()
      ensures elements == [] && next == null && prev == null
    {
      elements := [];
      next := null;
      prev := null;
    }

    predicate OnList()
      reads this
    {
      next != null && prev != null
    }

    /** Make room for an id: every value stays under its id, the new places are empty. */
    method Reserve(id: nat)
      modifies this`elements
      ensures |elements| >= id && |elements| >= |old(elements)|
      ensures forall j :: At(elements, j) == At(old(elements), j)
      ensures Held(elements) == Held(old(elements))
    {
      if id > |elements| {
        GrownHeld(elements, id);
        elements := Grown(elements, id);
      }
    }

    /** Store under an id whose place is empty. */
    method Set(id: nat, ptr: nat, deleter: nat)
      requires id >= 1 && At(elements, id).ptr == 0
      modifies this`elements
      ensures At(elements, id) == Element(ptr, deleter)
      ensures forall j :: j != id ==> At(elements, j) == At(old(elements), j)
      ensures Held(elements) == Held(old(elements)) + One(Element(ptr, deleter))
    {
      hide Held, One;
      Reserve(id);
      PutAt(elements, id, Element(ptr, deleter));
      elements := elements[id - 1 := Element(ptr, deleter)];
    }

    method Get(id: nat) returns (ptr: nat)
      requires id >= 1
      modifies this`elements
      ensures ptr == At(old(elements), id).ptr
      ensures forall j :: At(elements, j) == At(old(elements), j)
      ensures Held(elements) == Held(old(elements))
    {
      hide Held;
      Reserve(id);
      ptr := elements[id - 1].ptr;
    }

    /** getIfPresent, then destroy: the deleter runs on what was there, if anything was. */
    method DestroyOne(id: nat) returns (ran: multiset<Element>)
      requires id >= 1
      modifies this`elements
      ensures At(elements, id).ptr == 0 && |elements| == |old(elements)|
      ensures forall j :: j != id ==> At(elements, j) == At(old(elements), j)
      ensures ran == One(At(old(elements), id)) && Held(old(elements)) == Held(elements) + ran
    {
      ran := multiset{};
      if id <= |elements| && elements[id - 1].ptr != 0 {
        TakeAt(elements, id);
        hide Held;
        ran := multiset{elements[id - 1]};
        elements := elements[id - 1 := EMPTY];
      }
    }

    /** Thread exit: every stored value's deleter runs, once. */
    method DestroyAll() returns (ran: multiset<Element>)
      modifies this`elements
      ensures elements == []
      ensures ran == Held(old(elements))
    {
      ran := multiset{};
      var i := 0;
      hide Held, One;
      while i < |elements|
        invariant 0 <= i <= |elements| == |old(elements)|
        invariant forall j :: 1 <= j <= i ==> At(elements, j).ptr == 0
        invariant Held(old(elements)) == ran + Held(elements)
      {
        ghost var before := elements;
        var more := DestroyOne(i + 1);
        assert ran + Held(before) == (ran + more) + Held(elements);
        ran := ran + more;
        i := i + 1;
      }
      assert forall j :: 0 <= j < |elements| ==> elements[j] == At(elements, j + 1);
      HeldEmpty(elements);
      elements := [];
    }
  }
}
