/**
 * The registry of thread-local storage: who is registered, which ids are live, and that
 * every stored value is deleted exactly once.
 */
module ThreadRegistry {
  import opened ThreadLocals

  // ---------------------------------------------------------------- all threads' values together

  function AllHeld(c: seq<seq<Element>>): multiset<Element> {
    if c == [] then multiset{} else AllHeld(c[..|c| - 1]) + Held(c[|c| - 1])
  }

  lemma {:induction false} AllHeldPut(c: seq<seq<Element>>, i: nat, es: seq<Element>)
    requires i < |c|
    ensures AllHeld(c[i := es]) + Held(c[i]) == AllHeld(c) + Held(es)
  {
    hide Held;
    var n := |c| - 1;
    if i == n {
      assert c[i := es][..n] == c[..n];
      Swap(AllHeld(c[..n]), multiset{}, AllHeld(c[..n]), multiset{}, Held(c[i]));
    } else {
      assert c[i := es][..n] == c[..n][i := es];
      AllHeldPut(c[..n], i, es);
      Swap(AllHeld(c[..n][i := es]), Held(c[i]), AllHeld(c[..n]), Held(es), Held(c[n]));
    }
  }

  /** A row that holds nothing: empty, or places reserved and not yet filled. */
  predicate Blank(es: seq<Element>) {
    forall i :: 0 <= i < |es| ==> es[i].ptr == 0
  }

  lemma AllHeldPush(c: seq<seq<Element>>, es: seq<Element>)
    requires Blank(es)
    ensures AllHeld(c + [es]) == AllHeld(c)
    ensures forall stored, deleted :: Balanced(c, stored, deleted) ==> Balanced(c + [es], stored, deleted)
  {
    assert (c + [es])[..|c|] == c;
    HeldEmpty(es);
  }

  lemma Cancel(a: multiset<Element>, a': multiset<Element>, h: multiset<Element>, h': multiset<Element>,
      o: multiset<Element>)
    requires a' + h == a + h'
    ensures h' == h + o ==> a' == a + o
    ensures h == h' + o ==> a == a' + o
  {
    if h' == h + o {
      forall x ensures a'[x] == (a + o)[x] {
        assert (a' + h)[x] == (a + h')[x];
      }
    }
    if h == h' + o {
      forall x ensures a[x] == (a' + o)[x] {
        assert (a' + h)[x] == (a + h')[x];
      }
    }
  }

  /** Every stored value has been deleted once or is still held once. */
  ghost predicate Balanced(c: seq<seq<Element>>, stored: multiset<Element>, deleted: multiset<Element>) {
    stored == deleted + AllHeld(c)
  }

  /** Storing o in one row. */
  lemma RowGains(c: seq<seq<Element>>, k: nat, es: seq<Element>, o: multiset<Element>, stored: multiset<Element>,
      deleted: multiset<Element>)
    requires k < |c| && Held(es) == Held(c[k]) + o && Balanced(c, stored, deleted)
    ensures Balanced(c[k := es], stored + o, deleted)
  {
    hide Held;
    AllHeldPut(c, k, es);
    Cancel(AllHeld(c), AllHeld(c[k := es]), Held(c[k]), Held(es), o);
  }

  /** Deleting o from one row. */
  lemma RowLoses(c: seq<seq<Element>>, k: nat, es: seq<Element>, o: multiset<Element>, stored: multiset<Element>,
      deleted: multiset<Element>)
    requires k < |c| && Held(c[k]) == Held(es) + o && Balanced(c, stored, deleted)
    ensures Balanced(c[k := es], stored, deleted + o)
  {
    hide Held;
    AllHeldPut(c, k, es);
    Cancel(AllHeld(c), AllHeld(c[k := es]), Held(c[k]), Held(es), o);
  }

  /** Taking out a thread that holds nothing. */
  lemma {:induction false} AllHeldDrop(c: seq<seq<Element>>, i: nat)
    requires i < |c| && Held(c[i]) == multiset{}
    ensures AllHeld(c[..i] + c[i + 1..]) == AllHeld(c)
  {
    hide Held;
    var n := |c| - 1;
    if i == n {
      assert c[..i] + c[i + 1..] == c[..n];
    } else {
      AllHeldDrop(c[..n], i);
      assert (c[..i] + c[i + 1..])[..n - 1] == c[..n][..i] + c[..n][i + 1..];
    }
  }

  // ---------------------------------------------------------------- the ring

  /** Going round: head at 0, the threads in order at 1 .. |ts|, head again at |ts| + 1. */
  function Node(head: ThreadStorage, ts: seq<ThreadStorage>, i: nat): ThreadStorage {
    if 1 <= i <= |ts| then ts[i - 1] else head
  }

  function Last(head: ThreadStorage, ts: seq<ThreadStorage>): ThreadStorage {
    Node(head, ts, |ts|)
  }

  /** A circular doubly linked list, each thread in it once. */
  ghost predicate Ring(head: ThreadStorage, ts: seq<ThreadStorage>)
    reads head`next, head`prev, ts`next, ts`prev
  {
    && (forall i, j {:trigger Node(head, ts, i), Node(head, ts, j)} :: 0 <= i < j <= |ts| ==>
         Node(head, ts, i) != Node(head, ts, j))
    && (forall i {:trigger Node(head, ts, i).next} :: 0 <= i <= |ts| ==>
         Node(head, ts, i).next == Node(head, ts, i + 1))
    && (forall i {:trigger Node(head, ts, i).prev} :: 1 <= i <= |ts| + 1 ==>
         Node(head, ts, i).prev == Node(head, ts, i - 1))
  }

  /** cur = cur->next_. */
  method Follow(ghost head: ThreadStorage, cur: ThreadStorage, ghost ts: seq<ThreadStorage>, ghost i: nat)
      returns (next: ThreadStorage)
    requires Ring(head, ts) && i <= |ts| && cur == Node(head, ts, i)
    ensures next == Node(head, ts, i + 1)
  {
    assert Node(head, ts, i).next == Node(head, ts, i + 1);
    next := cur.next;
  }

  lemma InRing(head: ThreadStorage, ts: seq<ThreadStorage>)
    requires Ring(head, ts)
    ensures head !in ts && forall i, j :: 0 <= i < j < |ts| ==> ts[i] != ts[j]
    ensures forall i :: 0 <= i < |ts| ==> ts[i].OnList()
  {
    assert Node(head, ts, 0) == head;
    forall i | 0 <= i < |ts| ensures ts[i] == Node(head, ts, i + 1) && ts[i].OnList() {
      assert Node(head, ts, i + 1).next == Node(head, ts, i + 2);
      assert Node(head, ts, i + 1).prev == Node(head, ts, i);
    }
  }

  /** rows[i] is what thread i has under each id. */
  ghost predicate Mirrors(rows: seq<seq<Element>>, ts: seq<ThreadStorage>)
    reads ts`elements
  {
    |rows| == |ts| && forall i :: 0 <= i < |ts| ==> rows[i] == ts[i].elements
  }

  /** Link tls in before head. */
  method LinkLast(head: ThreadStorage, tls: ThreadStorage, ghost ts: seq<ThreadStorage>)
    requires Ring(head, ts) && tls !in ts && tls != head
    modifies tls`next, tls`prev, head`prev, Last(head, ts)`next
    ensures Ring(head, ts + [tls])
  {
    ghost var all := ts + [tls];
    ghost var last := Node(head, ts, |ts|);
    assert last.next == Node(head, ts, |ts| + 1) == head && head.prev == last;
    assert forall i {:trigger Node(head, all, i)} :: 0 <= i <= |ts| ==> Node(head, all, i) == Node(head, ts, i) != tls;
    tls.next := head;
    tls.prev := head.prev;
    tls.prev.next := tls;
    head.prev := tls;
  }

  /** Take ts[k] out of the ring. */
  method Unlink(head: ThreadStorage, tls: ThreadStorage, ghost ts: seq<ThreadStorage>, ghost k: nat)
    requires Ring(head, ts) && k < |ts| && ts[k] == tls
    modifies head`next, head`prev, ts`next, ts`prev
    ensures Ring(head, ts[..k] + ts[k + 1..]) && tls.next == null && tls.prev == null
  {
    ghost var rest := ts[..k] + ts[k + 1..];
    ghost var a, b := Node(head, ts, k), Node(head, ts, k + 2);
    assert tls == Node(head, ts, k + 1) && tls.prev == a && tls.next == b && a != tls;
    assert b != tls by {
      assert k + 2 <= |ts| ==> Node(head, ts, k + 2) != Node(head, ts, k + 1);
      assert head == Node(head, ts, 0);
    }
    assert forall i {:trigger Node(head, rest, i)} :: 0 <= i <= |rest| + 1 ==>
        Node(head, rest, i) == Node(head, ts, if i <= k then i else i + 1);
    tls.next.prev := tls.prev;
    tls.prev.next := tls.next;
    tls.next := null;
    tls.prev := null;
    hide Node;
    forall i | 0 <= i <= |rest|
      ensures Node(head, rest, i).next == Node(head, rest, i + 1) && Node(head, rest, i + 1).prev == Node(head, rest, i)
    {
      var x, y := Node(head, rest, i), Node(head, rest, i + 1);
      if i < k {
        assert x == Node(head, ts, i) != tls && x != a && y == Node(head, ts, i + 1) != tls;
        assert old(y.prev) == Node(head, ts, i) && y != b;
      } else if i > k {
        assert x == Node(head, ts, i + 1) != tls && x != a && y == Node(head, ts, i + 2);
        assert old(y.prev) == Node(head, ts, i + 1) && y != b && y != tls;
      }
    }
  }

  // ---------------------------------------------------------------- ids

  predicate IsLive(freeList: seq<nat>, nextId: nat, id: nat) {
    1 <= id <= nextId && id !in freeList
  }

  predicate IdsOk(freeList: seq<nat>, nextId: nat) {
    && (forall i :: 0 <= i < |freeList| ==> 1 <= freeList[i] <= nextId)
    && (forall i, j :: 0 <= i < j < |freeList| ==> freeList[i] != freeList[j])
  }

  /** No registered thread has a value under an id that is not live. */
  ghost predicate Clean(c: seq<seq<Element>>, freeList: seq<nat>, nextId: nat) {
    forall i, id: nat {:trigger At(c[i], id)} :: 0 <= i < |c| && !IsLive(freeList, nextId, id) ==> At(c[i], id).ptr == 0
  }

  lemma IdTaken(freeList: seq<nat>, nextId: nat, c: seq<seq<Element>>)
    requires IdsOk(freeList, nextId) && Clean(c, freeList, nextId)
    ensures var n := |freeList|;
            var id := if n == 0 then nextId + 1 else freeList[n - 1];
            var freeList' := if n == 0 then freeList else freeList[..n - 1];
            var nextId' := if n == 0 then nextId + 1 else nextId;
            && IdsOk(freeList', nextId') && Clean(c, freeList', nextId') && !IsLive(freeList, nextId, id)
            && (forall j :: IsLive(freeList', nextId', j) <==> IsLive(freeList, nextId, j) || j == id)
            && (forall i :: 0 <= i < |c| ==> At(c[i], id).ptr == 0)
  {
  }

  lemma IdGiven(freeList: seq<nat>, nextId: nat, c: seq<seq<Element>>, id: nat)
    requires IdsOk(freeList, nextId) && Clean(c, freeList, nextId) && IsLive(freeList, nextId, id)
    requires forall i :: 0 <= i < |c| ==> At(c[i], id).ptr == 0
    ensures IdsOk(freeList + [id], nextId) && Clean(c, freeList + [id], nextId)
    ensures forall j :: IsLive(freeList + [id], nextId, j) <==> IsLive(freeList, nextId, j) && j != id
  {
    hide At;
    assert forall j {:trigger j in freeList + [id]} :: j in freeList + [id] <==> j in freeList || j == id;
  }

  lemma NewRowClean(c: seq<seq<Element>>, es: seq<Element>, freeList: seq<nat>, nextId: nat)
    requires Clean(c, freeList, nextId) && Blank(es)
    ensures Clean(c + [es], freeList, nextId)
  {
    forall i, id: nat | 0 <= i < |c + [es]| && !IsLive(freeList, nextId, id) ensures At((c + [es])[i], id).ptr == 0 {
      if i < |c| { assert At(c[i], id).ptr == 0; }
    }
  }

  lemma RowClean(c: seq<seq<Element>>, k: nat, es: seq<Element>, id: nat, freeList: seq<nat>, nextId: nat)
    requires Clean(c, freeList, nextId) && k < |c| && IsLive(freeList, nextId, id)
    requires forall j :: j != id ==> At(es, j) == At(c[k], j)
    ensures Clean(c[k := es], freeList, nextId)
  {
    hide At;
  }

  lemma SameRowClean(c: seq<seq<Element>>, k: nat, es: seq<Element>, freeList: seq<nat>, nextId: nat)
    requires Clean(c, freeList, nextId) && k < |c| && forall j :: At(es, j) == At(c[k], j)
    ensures Clean(c[k := es], freeList, nextId)
  {
    hide At;
  }

  lemma RowsClean(c: seq<seq<Element>>, k: nat, freeList: seq<nat>, nextId: nat)
    requires Clean(c, freeList, nextId) && k < |c|
    ensures Clean(c[..k] + c[k + 1..], freeList, nextId)
  {
    hide At;
    var d := c[..k] + c[k + 1..];
    forall i, id: nat | 0 <= i < |d| && !IsLive(freeList, nextId, id) ensures At(d[i], id).ptr == 0 {
      assert d[i] == c[if i < k then i else i + 1];
    }
  }

  /** A row leaves once everything in it has been deleted. */
  lemma RowGone(c: seq<seq<Element>>, k: nat, ran: multiset<Element>, stored: multiset<Element>,
      deleted: multiset<Element>)
    requires k < |c| && ran == Held(c[k]) && Balanced(c, stored, deleted)
    ensures Balanced(c[..k] + c[k + 1..], stored, deleted + ran)
  {
    assert Held([]) == multiset{};
    RowLoses(c, k, [], ran, stored, deleted);
    AllHeldDrop(c[k := []], k);
    assert c[k := []][..k] + c[k := []][k + 1..] == c[..k] + c[k + 1..];
  }

  /** All threads' values under one id. */
  function Under(c: seq<seq<Element>>, id: nat): multiset<Element> {
    if c == [] then multiset{} else Under(c[..|c| - 1], id) + One(At(c[|c| - 1], id))
  }

  /** deleted is base plus the values under id of the first n threads. */
  ghost predicate Counted(deleted: multiset<Element>, base: multiset<Element>, c: seq<seq<Element>>, n: nat, id: nat)
    requires n <= |c|
  {
    deleted == base + Under(c[..n], id)
  }

  lemma CountedNone(base: multiset<Element>, c: seq<seq<Element>>, id: nat)
    ensures Counted(base, base, c, 0, id)
  {
    assert c[..0] == [];
  }

  lemma CountedNext(deleted: multiset<Element>, base: multiset<Element>, c: seq<seq<Element>>, i: nat, id: nat)
    requires i < |c| && Counted(deleted, base, c, i, id)
    ensures Counted(deleted + One(At(c[i], id)), base, c, i + 1, id)
  {
    hide One;
    assert c[..i + 1][..i] == c[..i];
    assert (base + Under(c[..i], id)) + One(At(c[i], id)) == base + (Under(c[..i], id) + One(At(c[i], id)));
  }

  lemma CountedAll(deleted: multiset<Element>, base: multiset<Element>, c: seq<seq<Element>>, id: nat)
    requires Counted(deleted, base, c, |c|, id)
    ensures deleted == base + Under(c, id)
  {
    assert c[..|c|] == c;
  }

  /** after is before with the value under id taken from the first n threads, and nothing else changed. */
  ghost predicate Wiped(before: seq<seq<Element>>, after: seq<seq<Element>>, n: nat, id: nat) {
    && |after| == |before|
    && (forall m :: 0 <= m < n && m < |after| ==> At(after[m], id).ptr == 0)
    && (forall m, j {:trigger At(after[m], j)} :: 0 <= m < |after| && j != id ==> At(after[m], j) == At(before[m], j))
    && (forall m :: n <= m < |after| ==> after[m] == before[m])
  }

  lemma WipedNone(c: seq<seq<Element>>, id: nat)
    ensures Wiped(c, c, 0, id)
  {
  }

  lemma WipedSame(before: seq<seq<Element>>, after: seq<seq<Element>>, n: nat, id: nat)
    requires Wiped(before, after, n, id) && n < |after|
    ensures |before| == |after| && after[n] == before[n]
  {
  }

  lemma WipedNext(c: seq<seq<Element>>, before: seq<seq<Element>>, after: seq<seq<Element>>, n: nat, id: nat)
    requires Wiped(c, before, n, id) && n < |before| && |after| == |before| && after == before[n := after[n]]
    requires At(after[n], id).ptr == 0 && forall j :: j != id ==> At(after[n], j) == At(before[n], j)
    ensures Wiped(c, after, n + 1, id)
  {
    hide At;
  }

  /**
   * The registry's own account (history): the registered threads in order, what each has
   * under each id, every value ever stored and every value a deleter has run on.
   */
  datatype Book = Book(threads: seq<ThreadStorage>, rows: seq<seq<Element>>, stored: multiset<Element>,
      deleted: multiset<Element>)

  class SharedStorage {
    const head: ThreadStorage
    var freeList: seq<nat>
    var nextId: nat
    ghost var book: Book

    ghost predicate Live(id: nat)
      reads this
    {
      IsLive(freeList, nextId, id)
    }

    ghost predicate Valid()
      reads this, head, book.threads
    {
      && Ring(head, book.threads) && Mirrors(book.rows, book.threads)
      && IdsOk(freeList, nextId) && Clean(book.rows, freeList, nextId)
      && Balanced(book.rows, book.stored, book.deleted)
    }

    constructor ()
      ensures Valid() && nextId == 0 && freeList == [] && book == Book([], [], multiset{}, multiset{})
    {
      head := new ThreadStorage();
      freeList := [];
      nextId := 0;
      book := Book([], [], multiset{}, multiset{});
      new;
      head.next := head;
      head.prev := head;
    }

    /**
     * A new id differs from every live one, and no thread has a value under it. It is the one
     * freed last; only when none is free does the counter rise.
     */
    method Create() returns (id: nat)
      requires Valid()
      modifies this`freeList, this`nextId
      ensures Valid()
      ensures if old(freeList) == [] then freeList == [] && id == nextId == old(nextId) + 1
              else nextId == old(nextId) && freeList + [id] == old(freeList)
      ensures !old(Live(id)) && Live(id) && forall j :: j != id ==> (Live(j) <==> old(Live(j)))
      ensures forall i :: 0 <= i < |book.rows| ==> At(book.rows[i], id).ptr == 0
    {
      hide Balanced, Clean, IdsOk, IsLive, At, Ring;
      IdTaken(freeList, nextId, book.rows);
      if freeList == [] {
        nextId := nextId + 1;
        id := nextId;
      } else {
        id := freeList[|freeList| - 1];
        freeList := freeList[..|freeList| - 1];
      }
    }

    /** A thread that has never used thread-local storage, or has exited: it may have places reserved, all empty. */
    ghost predicate Newcomer(tls: ThreadStorage)
      reads this, book.threads, tls
    {
      tls !in book.threads && tls != head && !tls.OnList() && Blank(tls.elements)
    }

    /** Register a thread at the end of the ring. */
    method AddThread(tls: ThreadStorage)
      requires Valid() && Newcomer(tls)
      modifies this`book, tls`next, tls`prev, head`prev, Last(head, book.threads)`next
      ensures Valid()
      ensures book == old(book).(threads := old(book.threads) + [tls], rows := old(book.rows) + [tls.elements])
    {
      hide Balanced, Clean, IdsOk, At, Held, Ring;
      assert tls != head && tls !in book.threads;
      LinkLast(head, tls, book.threads);
      AllHeldPush(book.rows, tls.elements);
      NewRowClean(book.rows, tls.elements, freeList, nextId);
      book := book.(threads := book.threads + [tls], rows := book.rows + [tls.elements]);
    }

    /** Store a value for a registered thread under a live id. */
    method Put(tls: ThreadStorage, ghost k: nat, id: nat, ptr: nat, deleter: nat)
      requires Valid() && k < |book.threads| && book.threads[k] == tls && Live(id) && At(book.rows[k], id).ptr == 0
      modifies this`book, tls`elements
      ensures Valid() && |book.rows| == |old(book.rows)|
      ensures book == old(book).(stored := old(book.stored) + One(Element(ptr, deleter)),
                rows := old(book.rows)[k := book.rows[k]])
      ensures At(book.rows[k], id) == Element(ptr, deleter) && forall j :: j != id ==>
                At(book.rows[k], j) == At(old(book.rows)[k], j)
    {
      hide Balanced, Clean, IdsOk, At, Held, One, Ring;
      assert id >= 1;
      tls.Set(id, ptr, deleter);
      RowGains(book.rows, k, tls.elements, One(Element(ptr, deleter)), book.stored, book.deleted);
      RowClean(book.rows, k, tls.elements, id, freeList, nextId);
      book := book.(rows := book.rows[k := tls.elements], stored := book.stored + One(Element(ptr, deleter)));
      InRing(head, book.threads);
    }

    /** get: registers the thread if this is its first access, and never changes a value. */
    method Get(tls: ThreadStorage, ghost k: nat, id: nat) returns (ptr: nat)
      requires Valid() && id >= 1
      requires if tls in book.threads then k < |book.threads| && book.threads[k] == tls
               else Newcomer(tls) && k == |book.threads|
      modifies this`book, tls, head`prev, Last(head, book.threads)`next
      ensures Valid() && book.stored == old(book.stored) && book.deleted == old(book.deleted)
      ensures k < |book.threads| && book.threads[k] == tls
      ensures book.threads == if tls in old(book.threads) then old(book.threads) else old(book.threads) + [tls]
      ensures ptr == At(old(tls.elements), id).ptr && forall j :: At(tls.elements, j) == At(old(tls.elements), j)
    {
      hide Balanced, Clean, IdsOk, At, Held, One, Ring;
      InRing(head, book.threads);
      if !tls.OnList() {
        AddThread(tls);
      }
      label registered:
      ptr := tls.Get(id);
      RowGains(book.rows, k, tls.elements, multiset{}, book.stored, book.deleted);
      SameRowClean(book.rows, k, tls.elements, freeList, nextId);
      assert book.stored + multiset{} == book.stored;
      InRing(head, book.threads);
      book := book.(rows := book.rows[k := tls.elements]);
    }

    /** set, by a thread that may be using thread-local storage for the first time. */
    method Set(tls: ThreadStorage, ghost k: nat, id: nat, ptr: nat, deleter: nat)
      requires Valid() && Live(id) && At(tls.elements, id).ptr == 0
      requires if tls in book.threads then k < |book.threads| && book.threads[k] == tls
               else Newcomer(tls) && k == |book.threads|
      modifies this`book, tls, head`prev, Last(head, book.threads)`next
      ensures Valid() && book.stored == old(book.stored) + One(Element(ptr, deleter))
      ensures book.deleted == old(book.deleted)
      ensures book.threads == if tls in old(book.threads) then old(book.threads) else old(book.threads) + [tls]
      ensures At(tls.elements, id) == Element(ptr, deleter) && forall j :: j != id ==>
                At(tls.elements, j) == At(old(tls.elements), j)
    {
      hide Balanced, Clean, IdsOk, At, Held, One, Ring;
      InRing(head, book.threads);
      if !tls.OnList() {
        AddThread(tls);
      }
      Put(tls, k, id, ptr, deleter);
    }

    /** Thread exit: unregister, then run every deleter. */
    method Exit(tls: ThreadStorage, ghost k: nat)
      requires Valid() && k < |book.threads| && book.threads[k] == tls
      modifies this`book, head`next, head`prev, book.threads`next, book.threads`prev, tls`elements
      ensures Valid() && book.threads == old(book.threads)[..k] + old(book.threads)[k + 1..]
      ensures book.rows == old(book.rows)[..k] + old(book.rows)[k + 1..] && book.stored == old(book.stored)
      ensures book.deleted == old(book.deleted) + Held(old(tls.elements))
      ensures !tls.OnList() && Blank(tls.elements)
    {
      hide Balanced, Clean, IdsOk, At, Held, One, Ring;
      InRing(head, book.threads);
      ghost var rows := book.rows;
      Unlink(head, tls, book.threads, k);
      var ran := tls.DestroyAll();
      RowGone(rows, k, ran, book.stored, book.deleted);
      RowsClean(rows, k, freeList, nextId);
      book := book.(threads := book.threads[..k] + book.threads[k + 1..], rows := rows[..k] + rows[k + 1..],
          deleted := book.deleted + ran);
    }

    /** One thread's turn in destroy. */
    method DestroyAt(cur: ThreadStorage, ghost k: nat, id: nat)
      requires Valid() && k < |book.threads| && book.threads[k] == cur && Live(id)
      modifies this`book, cur`elements
      ensures Valid() && |book.rows| == |old(book.rows)|
      ensures book == old(book).(deleted := old(book.deleted) + One(At(old(book.rows)[k], id)),
                rows := old(book.rows)[k := book.rows[k]])
      ensures At(book.rows[k], id).ptr == 0 && forall j :: j != id ==> At(book.rows[k], j) == At(old(book.rows)[k], j)
    {
      hide Balanced, Clean, IdsOk, At, Held, One, Ring;
      assert id >= 1;
      InRing(head, book.threads);
      var ran := cur.DestroyOne(id);
      RowLoses(book.rows, k, cur.elements, ran, book.stored, book.deleted);
      RowClean(book.rows, k, cur.elements, id, freeList, nextId);
      book := book.(rows := book.rows[k := cur.elements], deleted := book.deleted + ran);
    }

    /** The walk round the ring in destroy. */
    method DestroyRows(id: nat)
      requires Valid() && Live(id)
      modifies this`book, book.threads`elements
      ensures Valid() && book.threads == old(book.threads) && book.stored == old(book.stored)
      ensures Wiped(old(book.rows), book.rows, |old(book.rows)|, id)
      ensures book.deleted == old(book.deleted) + Under(old(book.rows), id)
    {
      hide Balanced, Clean, IdsOk, IsLive, At, Held, One, Ring, Wiped, Counted;
      ghost var ts, rows := book.threads, book.rows;
      CountedNone(book.deleted, rows, id);
      var cur := Follow(head, head, ts, 0);
      ghost var i := 0;
      WipedNone(rows, id);
      while cur != head
        invariant 0 <= i <= |ts| && ts == book.threads && cur == Node(head, ts, i + 1) && |rows| == |ts|
        invariant Valid() && book.stored == old(book.stored) && Wiped(rows, book.rows, i, id)
        invariant Counted(book.deleted, old(book.deleted), rows, i, id)
        decreases |ts| - i
      {
        CountedNext(book.deleted, old(book.deleted), rows, i, id);
        WipedSame(rows, book.rows, i, id);
        ghost var before := book.rows;
        DestroyAt(cur, i, id);
        WipedNext(rows, before, book.rows, i, id);
        cur := Follow(head, cur, ts, i + 1);
        i := i + 1;
      }
      InRing(head, ts);
      CountedAll(book.deleted, old(book.deleted), rows, id);
    }

    /** destroy: every registered thread's value under the id is deleted, once, and the id is free again. */
    method Destroy(id: nat)
      requires Valid() && Live(id)
      modifies this`book, this`freeList, book.threads`elements
      ensures Valid() && book.threads == old(book.threads) && book.stored == old(book.stored)
      ensures Wiped(old(book.rows), book.rows, |old(book.rows)|, id)
      ensures book.deleted == old(book.deleted) + Under(old(book.rows), id)
      ensures !Live(id) && forall j :: j != id ==> (Live(j) <==> old(Live(j)))
      ensures freeList == old(freeList) + [id]
    {
      hide Balanced, Clean, IdsOk, IsLive, At, Held, One, Ring;
      DestroyRows(id);
      IdGiven(freeList, nextId, book.rows, id);
      freeList := freeList + [id];
    }
  }
}
