/**
 * Who frees which slab of counter cells. A table of size 2^k is made of k slabs, shared
 * with the tables it grew from; the flags `owner` and `clean` decide what its
 * destructor releases.
 */
module StripedStorage {
  import opened Words

  /** A cell: slab and offset. Only offset 0 may be handed to delete[]. */
  datatype Cell = Cell(slab: nat, off: nat)

  function Pow2(k: nat): nat {
    if k == 0 then 1 else 2 * Pow2(k - 1)
  }

  lemma {:induction false} Pow2Positive(k: nat)
    ensures Pow2(k) >= 1
  {
    if k > 0 {
      Pow2Positive(k - 1);
    }
  }

  /** Where the k-th slab starts in the table: 0, 2, 4, 8, ... */
  function Start(k: nat): nat {
    if k == 0 then 0 else Pow2(k)
  }

  function Slab(id: nat, n: nat): seq<Cell> {
    seq(n, i requires 0 <= i < n => Cell(id, i))
  }

  /** The table whose slabs are `ids`, in the order they were added. */
  function Layout(ids: seq<nat>): seq<Cell>
    requires |ids| >= 1
  {
    if |ids| == 1 then Slab(ids[0], 2)
    else
      var low := Layout(ids[..|ids| - 1]);
      low + Slab(ids[|ids| - 1], |low|)
  }

  lemma {:induction false} LayoutSize(ids: seq<nat>)
    requires |ids| >= 1
    ensures |Layout(ids)| == Pow2(|ids|)
  {
    if |ids| == 1 {
      assert Pow2(1) == 2 * Pow2(0);
    } else {
      LayoutSize(ids[..|ids| - 1]);
    }
  }

  /** Position Start(k) holds the first cell of the k-th slab. */
  lemma {:induction false} LayoutStart(ids: seq<nat>, k: nat)
    requires k < |ids|
    ensures Start(k) < |Layout(ids)| && Layout(ids)[Start(k)] == Cell(ids[k], 0)
  {
    LayoutSize(ids);
    var n := |ids| - 1;
    if n > 0 {
      LayoutSize(ids[..n]);
      Pow2Positive(n);
      if k < n {
        LayoutStart(ids[..n], k);
      }
    }
  }

  lemma {:induction false} Pow2Less(j: nat, k: nat)
    requires j < k
    ensures Pow2(j) < Pow2(k)
  {
    Pow2Positive(k - 1);
    if j + 1 < k {
      Pow2Less(j, k - 1);
    }
  }

  // ---------------------------------------------------------------- the allocator and the table

  /** The slabs not yet deleted; deleting one twice violates Delete's precondition. */
  class Slabs {
    var live: set<nat>
    var fresh_: nat

    ghost predicate Valid()
      reads this
    {
      forall x :: x in live ==> x < fresh_
    }

    constructor ()
      ensures Valid() && live == {}
    {
      live := {};
      fresh_ := 0;
    }

    method New() returns (id: nat)
      requires Valid()
      modifies this
      ensures Valid() && id !in old(live) && live == old(live) + {id} && id == old(fresh_) && fresh_ == id + 1
    {
      id := fresh_;
      live := live + {id};
      fresh_ := fresh_ + 1;
    }

    method Delete(c: Cell)
      requires Valid() && c.off == 0 && c.slab in live
      modifies this
      ensures Valid() && live == old(live) - {c.slab} && fresh_ == old(fresh_)
    {
      live := live - {c.slab};
    }
  }

  class Storage {
    var clean: bool
    var owner: bool
    const data: array<Cell>
    ghost const ids: seq<nat>

    ghost predicate Valid()
      reads this, data
    {
      && |ids| >= 1
      && (forall i, j :: 0 <= i < j < |ids| ==> ids[i] != ids[j])
      && data[..] == Layout(ids)
    }

    /** The slabs this table's destructor deletes. */
    ghost function Owes(): set<nat>
      reads this
      requires |ids| >= 1
    {
      if owner then set x | x in ids else if clean then {ids[|ids| - 1]} else {}
    }

    constructor (slabs: Slabs)
      requires slabs.Valid()
      modifies slabs
      ensures Valid() && fresh(data) && clean && owner && data.Length == 2
      ensures slabs.Valid() && ids == [old(slabs.fresh_)] && slabs.fresh_ == old(slabs.fresh_) + 1
      ensures slabs.live == old(slabs.live) + {old(slabs.fresh_)}
    {
      clean := true;
      owner := true;
      var id := slabs.New();
      var table := new Cell[2](i requires 0 <= i < 2 => Cell(id, i));
      data := table;
      ids := [id];
      new;
      assert data[..] == Slab(id, 2);
    }

    /** expand: twice the size, the existing cells first, one new slab for the rest. */
    constructor Expand(slabs: Slabs, existing: Storage)
      requires slabs.Valid() && existing.Valid() && forall x :: x in existing.ids ==> x < slabs.fresh_
      modifies slabs
      ensures Valid() && fresh(data) && clean && owner && data.Length == 2 * existing.data.Length
      ensures data[..existing.data.Length] == existing.data[..]
      ensures slabs.Valid() && ids == existing.ids + [old(slabs.fresh_)] && slabs.fresh_ == old(slabs.fresh_) + 1
      ensures slabs.live == old(slabs.live) + {old(slabs.fresh_)}
    {
      clean := true;
      owner := true;
      var n := existing.data.Length;
      var id := slabs.New();
      var table := new Cell[2 * n](i requires 0 <= i < 2 * n reads existing.data =>
        if i < n then existing.data[i] else Cell(id, i - n));
      data := table;
      ids := existing.ids + [id];
      new;
      assert forall i :: 0 <= i < |existing.ids| ==> existing.ids[i] in existing.ids;
      assert ids[..|ids| - 1] == existing.ids;
      assert data[..] == existing.data[..] + Slab(id, n);
    }

    method Disavow()
      requires Valid()
      modifies this
      ensures Valid() && !owner && clean == old(clean)
    {
      owner := false;
    }

    method DisavowAll()
      requires Valid()
      modifies this
      ensures Valid() && !owner && !clean
    {
      owner := false;
      clean := false;
    }

    /**
     * The destructor. It visits exactly the slab starts, in order, and deletes exactly
     * what the flags say, each slab once.
     */
    method Destroy(slabs: Slabs) returns (visited: seq<nat>)
      requires Valid() && slabs.Valid() && Owes() <= slabs.live
      modifies slabs
      ensures slabs.Valid() && slabs.live == old(slabs.live) - Owes() && slabs.fresh_ == old(slabs.fresh_)
      ensures |visited| == |ids| && forall k :: 0 <= k < |visited| ==> visited[k] == Start(k)
    {
      LayoutSize(ids);
      var shift := 0;
      var slab := 0;
      visited := [];
      while true
        invariant 0 <= shift < |ids| && slab == Start(shift) && slabs.Valid() && slabs.fresh_ == old(slabs.fresh_)
        invariant |visited| == shift && forall k :: 0 <= k < |visited| ==> visited[k] == Start(k)
        invariant slabs.live == old(slabs.live) - if owner then set x | x in ids[..shift] else {}
        decreases |ids| - shift
      {
        LayoutStart(ids, shift);
        if owner {
          StillThere(ids, shift, old(slabs.live));
          slabs.Delete(data[slab]);
        }
        visited := visited + [slab];
        assert ids[..shift + 1] == ids[..shift] + [ids[shift]];
        shift := shift + 1;
        var next := Pow2(shift);
        if next >= data.Length {
          if shift < |ids| { Pow2Less(shift, |ids|); }
          break;
        }
        if shift == |ids| { assert false; }
        slab := next;
      }
      assert ids[..|ids|] == ids;
      LayoutStart(ids, |ids| - 1);
      if !owner && clean {
        slabs.Delete(data[slab]);
      }
    }
  }

  lemma StillThere(ids: seq<nat>, k: nat, live: set<nat>)
    requires k < |ids| && (set x | x in ids) <= live && forall i, j :: 0 <= i < j < |ids| ==> ids[i] != ids[j]
    ensures ids[k] in live - (set x | x in ids[..k])
  {
  }

  /** expand, disavow_all and delete: one table takes the place of another, and no slab is lost or freed. */
  method Replace(st: Storage, slabs: Slabs) returns (tmp: Storage)
    requires st.Valid() && slabs.Valid() && forall x :: x in st.ids ==> x < slabs.fresh_
    modifies st, slabs
    ensures tmp.Valid() && fresh(tmp) && tmp.owner && tmp.data.Length == 2 * st.data.Length && |tmp.ids| == |st.ids| + 1
    ensures tmp.data[..st.data.Length] == st.data[..]
    ensures slabs.Valid() && slabs.fresh_ == old(slabs.fresh_) + 1
    ensures tmp.ids == st.ids + [old(slabs.fresh_)] && slabs.live == old(slabs.live) + {old(slabs.fresh_)}
  {
    tmp := new Storage.Expand(slabs, st);
    st.DisavowAll();
    var visited := st.Destroy(slabs);
  }

  /** Striped64(k): the smallest table of at least k cells, and at least two; nothing leaks. */
  method Build(k: nat, slabs: Slabs) returns (st: Storage)
    requires slabs.Valid()
    modifies slabs
    ensures st.Valid() && st.owner && st.data.Length >= k && (st.data.Length == 2 || st.data.Length < 2 * k)
    ensures slabs.Valid() && slabs.live == old(slabs.live) + set x | x in st.ids
    ensures st.data.Length == Pow2(|st.ids|)
  {
    st := new Storage(slabs);
    while st.data.Length < k
      invariant slabs.Valid() && st.Valid() && fresh(st) && st.owner && st.data.Length >= 2
      invariant st.data.Length == 2 || st.data.Length < 2 * k
      invariant slabs.live == old(slabs.live) + set x | x in st.ids
      invariant forall x :: x in st.ids ==> x < slabs.fresh_
      decreases k - st.data.Length
    {
      st := Replace(st, slabs);
    }
    LayoutSize(st.ids);
  }
}
